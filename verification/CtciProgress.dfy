/** Every run of internal steps of the CTCI driver is finite, and ends with nothing left to do. */
module CtciProgress {
  import opened CtciMachine
  import opened CtciInvariant
  import opened CtciSafety

  // ---- what is left of the pass -----------------------------------------------------------------------

  function Rank(pc: ExecPc): nat {
    match pc
    case ClearWake => 40 case ClearDev => 39
    case TestReady => 38 case DecodeBlock => 37 case ClearReady => 36 case SetHold => 35
    case TestWready => 34 case Reap => 33 case ClearWready => 32 case ClearTxbusy => 31
    case Handlers => 30
    case Kick => 29 case TestArmed => 28 case SetHalting => 27 case HaltRead => 26
    case Dequeue => 25 case EncodePacket => 24 case SetTxbusy => 23 case PostGo => 22
    case ClearHold => 21 case ClearHalting => 20 case PostReturn => 19
    case Gate => 2 case GateWrite => 1
    case SetStop => 300
    case _ => 0
  }

  /** The pass is still short of the point where it consumes a filled read block. */
  predicate BeforeRead(pc: ExecPc) {
    pc.ClearWake? || pc.ClearDev? || pc.TestReady? || pc.DecodeBlock? || pc.ClearReady?
  }

  predicate BeforeReap(pc: ExecPc) {
    BeforeRead(pc) || pc.SetHold? || pc.TestWready? || pc.Reap? || pc.ClearWready?
  }

  predicate BeforeDispatch(x: Exec) {
    BeforeReap(x.pc) || x.pc.ClearTxbusy? || (x.pc.Handlers? && x.budget == DRAIN_BUDGET)
  }

  function One(b: bool): nat { if b then 1 else 0 }

  /** Reasons for a further pass that the current one has not begun to answer. */
  function Wanted(s: State): nat {
    One(s.devecb && !s.x.pc.ClearWake? && !s.x.pc.ClearDev?)
    + One(s.wakeecb && !s.x.pc.ClearWake?)
    + One(s.r.rready && !BeforeRead(s.x.pc))
    + One(s.w.wready && !BeforeReap(s.x.pc))
    + One(s.x.evq != [] && !BeforeDispatch(s.x))
  }

  // ---- how far round its cycle the READ is ------------------------------------------------------------

  /** Steps left before the read subtask comes to rest on an outstanding READ. */
  function ToRest(r: ReadSide): nat {
    match r.pc
    case RTop => 8 case RClearRecb => 7 case RExcp => 6
    case RSetArmed => 5 case RPostArmed => 4 case RStopA => 3 case RTestA => 2 case _ => 1
  }

  function ToTake(r: ReadSide): nat {
    match r.pc
    case RSetArmed => if r.recb then 13 else 14
    case RPostArmed => if r.recb then 11 else 12
    case RStopA => if r.recb then 4 else 8
    case RTestA => if r.recb then 3 else 7
    case _ => if r.recb then 5 else 6
  }

  function ParkedPos(r: ReadSide): nat {
    match r.pc
    case RPostReady => if r.returnecb then 8 else 3
    case RBlockB => if r.returnecb then 7 else 0
    case RStopB => if r.returnecb then 6 else 2
    case _ => if r.returnecb then 5 else 1
  }

  function HoldStage(x: Exec, r: ReadSide): nat {
    if r.rready then (if x.pc.ClearReady? then 8 else 9)
    else if x.pc.SetHold? then 7
    else if x.rhold then 6
    else if x.pc.ClearHalting? then 5
    else 4
  }

  /** While packets wait in the send queue the cycle runs towards the hold and stops there; with the
      queue empty it runs towards an outstanding READ and stops there. */
  function ReadStage(x: Exec, r: ReadSide): nat {
    var waiting := x.sendq != [];
    if Starting(r) || (Started(r) && r.ch.Out?) then (if waiting then 140 else 0) + ToRest(r)
    else if Started(r) then 118 + ToTake(r)
    else if r.pc.RClearArmed? then 113
    else if r.pc.RStatus? then 112
    else if r.pc.RClearReturn? then 111
    else if r.pc.RSetReady? then 110
    else if r.returnecb then (if waiting then 160 else 30) + ParkedPos(r)
    else 10 * HoldStage(x, r) + ParkedPos(r)
  }

  // ---- how far along the WRITE is ---------------------------------------------------------------------

  function IdlePos(w: WriteSide): nat {
    match w.pc
    case WPostReady => if w.txgoecb then 9 else 4
    case WTop => if w.txgoecb then 8 else 3
    case WBlockG => if w.txgoecb then 7 else 0
    case WStopG => if w.txgoecb then 6 else 2
    case _ => if w.txgoecb then 5 else 1
  }

  function OutPos(w: WriteSide): nat {
    match w.pc
    case WStopC => if w.ch.Out? then 9 else if w.ch.Posting? then 6 else 2
    case WTestC => if w.ch.Out? then 8 else if w.ch.Posting? then 5 else 1
    case _ => if w.ch.Out? then 7 else if w.ch.Posting? then 4 else 3
  }

  function WriteStage(x: Exec, w: WriteSide): nat {
    if x.pc.SetTxbusy? then 600 + IdlePos(w)
    else if !x.txbusy then IdlePos(w)
    else if x.pc.PostGo? then 590 + IdlePos(w)
    else if w.pc.WClearGo? then 550
    else if w.pc.WTestStop? then 540
    else if w.pc.WClearWecb? then 530
    else if w.pc.WExcp? then 520
    else if WOut(w) then 210 + OutPos(w)
    else if w.pc.WStatus? then 200
    else if w.pc.WSetReady? then 190
    else if w.txgoecb then 570 + IdlePos(w)
    else if w.wready then 180 + IdlePos(w)
    else 170 + IdlePos(w)
  }

  // ---- the shutdown ------------------------------------------------------------------------------------

  function StopRank(pc: ExecPc): nat {
    match pc
    case StopRecb => 8 case StopWecb => 7 case StopReturn => 6 case StopGo => 5
    case Join => 4 case FreeTx => 3 case Flush => 2 case _ => 0
  }

  function ReadLeft(r: ReadSide): nat {
    match r.pc
    case RClearRecb => 25 case RExcp => 24 case RSetArmed => 23 case RPostArmed => 22 case RTestA => 21
    case RClearArmed => 20 case RStatus => 19 case RClearReturn => 18 case RSetReady => 17 case RPostReady => 16
    case RTestB => 5 case RBlockA => 4 case RBlockB => 4 case RStopA => 3 case RStopB => 3
    case RTop => 2 case RClose => 1 case REnd => 0
  }

  function WriteLeft(w: WriteSide): nat {
    match w.pc
    case WTestG => 24 case WClearGo => 23 case WTestStop => 22 case WClearWecb => 21 case WExcp => 20
    case WTestC => 12 case WStatus => 11 case WSetReady => 10 case WPostReady => 9
    case WBlockG => 4 case WBlockC => 4 case WStopG => 3 case WStopC => 3
    case WTop => 2 case WClose => 1 case WEnd => 0
  }

  function ChanLeft(c: Chan): nat {
    match c case Out => 2 case Posting => 1 case Idle => 0
  }

  function Left(pc: ExecPc, r: ReadSide, w: WriteSide): nat {
    StopRank(pc) + 3 * ReadLeft(r) + 3 * WriteLeft(w) + One(r.ch.Posting?) + ChanLeft(w.ch)
  }

  // ---- the measure -------------------------------------------------------------------------------------

  const PASS: nat := 50
  const EVENT: nat := 52
  const READ_STAGE: nat := 700
  const WRITE_STAGE: nat := 60
  const IN_HAND: nat := 37000
  const QUEUED: nat := 38000
  const INBOUND: nat := 100000

  /** An upper bound on the internal steps still possible from `s` if nothing more arrives. */
  function Measure(s: State): nat {
    if s.stop then Left(s.x.pc, s.r, s.w)
    else
      INBOUND * |s.r.inq|
      + QUEUED * |s.x.sendq|
      + IN_HAND * One(s.x.hand.Some?)
      + WRITE_STAGE * WriteStage(s.x, s.w)
      + READ_STAGE * ReadStage(s.x, s.r)
      + EVENT * |s.x.evq|
      + PASS * Wanted(s)
      + Rank(s.x.pc)
  }

  lemma ReadStartCounts(s: State)
    requires ReadToken(s.x, s.r) && ReadChannel(s.r) && ReadEnabled(s) && !s.stop
    requires (Starting(s.r) || Started(s.r)) && !s.r.pc.RExcp?
    ensures ReadStage(s.x, DoRead(s).r) < ReadStage(s.x, s.r)
  {
  }

  lemma ReadUpCounts(s: State)
    requires ReadToken(s.x, s.r) && ReadChannel(s.r) && ReadEnabled(s) && !s.stop && InHand(s.r)
    ensures ReadStage(s.x, DoRead(s).r) < ReadStage(s.x, s.r)
  {
  }

  lemma ReadParkCounts(s: State)
    requires ReadToken(s.x, s.r) && ReadChannel(s.r) && ReadEnabled(s) && !s.stop && Parked(s.r)
    ensures ReadStage(s.x, DoRead(s).r) < ReadStage(s.x, s.r)
  {
  }

  /** A step of the read subtask alone: at most one new reason for a pass, and the READ further on. */
  ghost predicate ReadMoves(s: State, t: State) {
    && t.x == s.x && t.w == s.w && t.stop == s.stop && t.r.inq == s.r.inq && t.wakeecb == s.wakeecb
    && (t.r.rready == s.r.rready || t.devecb == s.devecb)
    && ReadStage(t.x, t.r) < ReadStage(s.x, s.r)
  }

  lemma ReadMovesCount(s: State, t: State)
    requires !s.stop && ReadMoves(s, t)
    ensures Measure(t) < Measure(s)
  {
    assert Wanted(t) <= Wanted(s) + 1;
  }

  lemma ReadCounts(s: State)
    requires ReadToken(s.x, s.r) && ReadChannel(s.r) && ReadEnabled(s) && !s.stop && !s.r.pc.RExcp?
    ensures Measure(DoRead(s)) < Measure(s)
  {
    if Parked(s.r) { ReadParkCounts(s); } else if InHand(s.r) { ReadUpCounts(s); } else { ReadStartCounts(s); }
    ReadMovesCount(s, DoRead(s));
  }

  lemma ExcpCounts(s: State)
    requires Control(s) && s.r.pc.RExcp? && !s.stop
    ensures Measure(DoRead(s)) < Measure(s)
  {
    var t := DoRead(s);
    assert t.w == s.w && t.x == s.x && WriteStage(t.x, t.w) == WriteStage(s.x, s.w);
    assert Wanted(t) == Wanted(s);
  }

  lemma WriteIdleCounts(s: State)
    requires WriteToken(s.x, s.w) && WriteEnabled(s) && !s.stop && WIdle(s.w)
    ensures WriteStage(s.x, DoWrite(s).w) < WriteStage(s.x, s.w)
  {
  }

  lemma WriteBusyCounts(s: State)
    requires WriteToken(s.x, s.w) && WriteEnabled(s) && !s.stop && !WIdle(s.w)
    ensures WriteStage(s.x, DoWrite(s).w) < WriteStage(s.x, s.w)
  {
  }

  ghost predicate WriteMoves(s: State, t: State) {
    && t.x == s.x && t.r == s.r && t.stop == s.stop && t.wakeecb == s.wakeecb
    && (t.w.wready == s.w.wready || t.devecb == s.devecb)
    && WriteStage(t.x, t.w) < WriteStage(s.x, s.w)
  }

  lemma WriteMovesCount(s: State, t: State)
    requires !s.stop && WriteMoves(s, t)
    ensures Measure(t) < Measure(s)
  {
    assert Wanted(t) <= Wanted(s) + 1;
  }

  lemma WriteCounts(s: State)
    requires Control(s) && WriteEnabled(s) && !s.stop
    ensures Measure(DoWrite(s)) < Measure(s)
  {
    if WIdle(s.w) { WriteIdleCounts(s); } else { WriteBusyCounts(s); }
    WriteMovesCount(s, DoWrite(s));
  }

  lemma ChannelCounts(s: State, a: Action)
    requires Control(s) && Enabled(s, a) && !s.stop && (a.ReadPosts? || a.WriteEnds? || a.WritePosts?)
    ensures Measure(Step(s, a)) < Measure(s)
  {
  }

  /** A step that moves only the executive along its pass: the read and write cycles stay where they are. */
  ghost predicate SameCycles(s: State, t: State) {
    && t.r == s.r && t.w == s.w && t.stop == s.stop
    && t.x.hand == s.x.hand && t.x.sendq == s.x.sendq
    && ReadStage(t.x, t.r) == ReadStage(s.x, s.r)
    && WriteStage(t.x, t.w) == WriteStage(s.x, s.w)
  }

  lemma SameCyclesCount(s: State, t: State)
    requires !s.stop && SameCycles(s, t)
    requires EVENT * |t.x.evq| + PASS * Wanted(t) + Rank(t.x.pc) < EVENT * |s.x.evq| + PASS * Wanted(s) + Rank(s.x.pc)
    ensures Measure(t) < Measure(s)
  {
  }

  lemma GateCounts(s: State)
    requires !s.stop && s.x.pc.Gate?
    ensures Measure(DoPass(s)) < Measure(s)
  {
    SameCyclesCount(s, DoPass(s));
  }

  lemma GateWriteCounts(s: State)
    requires !s.stop && s.x.pc.GateWrite?
    ensures Measure(DoPass(s)) < Measure(s)
  {
    SameCyclesCount(s, DoPass(s));
  }

  lemma WakeupCounts(s: State)
    requires !s.stop && s.x.pc.Blocked? && (s.devecb || s.wakeecb)
    ensures Measure(DoPass(s)) < Measure(s)
  {
    SameCyclesCount(s, DoPass(s));
  }

  lemma ResetCounts(s: State)
    requires !s.stop && (s.x.pc.ClearWake? || s.x.pc.ClearDev?)
    ensures Measure(DoPass(s)) < Measure(s)
  {
    SameCyclesCount(s, DoPass(s));
  }

  lemma DispatchOneCounts(s: State)
    requires !s.stop && s.x.pc.Handlers? && s.x.evq != [] && s.x.budget > 0
    ensures Measure(DoPass(s)) < Measure(s)
  {
    var t := DoPass(s);
    assert t.r == s.r && t.w == s.w && t.devecb == s.devecb && t.wakeecb == s.wakeecb;
    assert |t.x.evq| == |s.x.evq| - 1 && Wanted(t) <= Wanted(s) + 1;
    SameCyclesCount(s, t);
  }

  lemma DispatchCounts(s: State)
    requires !s.stop && s.x.pc.Handlers?
    ensures Measure(DoPass(s)) < Measure(s)
  {
    if s.x.evq != [] && s.x.budget > 0 {
      DispatchOneCounts(s);
    } else {
      var t := DoPass(s);
      assert t.r == s.r && t.w == s.w && t.devecb == s.devecb && t.wakeecb == s.wakeecb;
      assert Wanted(t) == Wanted(s);
      SameCyclesCount(s, t);
    }
  }

  lemma TestCounts(s: State, fates: seq<Fate>)
    requires Control(s) && !s.stop && ExecEnabled(s, fates) && (s.x.pc.TestReady? || s.x.pc.TestWready? || s.x.pc.Reap?)
    ensures Measure(DoService(s, fates)) < Measure(s)
  {
    SameCyclesCount(s, DoService(s, fates));
  }

  /** A block decoded costs at most a full event queue, against one step of the READ's cycle. */
  lemma DecodesCount(s: State, t: State)
    requires !s.stop && Unpacks(s, t) && s.x.pc.DecodeBlock? && ReadToken(s.x, s.r)
    ensures Measure(t) < Measure(s)
  {
    assert ReadStage(t.x, t.r) == ReadStage(s.x, s.r) - 10;
    assert WriteStage(t.x, t.w) == WriteStage(s.x, s.w);
    assert Wanted(t) == Wanted(s);
  }

  lemma DecodeCounts(s: State, fates: seq<Fate>)
    requires Control(s) && !s.stop && ExecEnabled(s, fates) && s.x.pc.DecodeBlock?
    ensures Measure(DoService(s, fates)) < Measure(s)
  {
    DecodeMoves(s, fates);
    DecodesCount(s, DoService(s, fates));
  }

  lemma TakeReadCounts(s: State, fates: seq<Fate>)
    requires Control(s) && !s.stop && ExecEnabled(s, fates) && (s.x.pc.ClearReady? || s.x.pc.SetHold?)
    ensures Measure(DoService(s, fates)) < Measure(s)
  {
    var t := DoService(s, fates);
    assert ReadStage(t.x, t.r) == ReadStage(s.x, s.r) - 10;
    assert WriteStage(t.x, t.w) == WriteStage(s.x, s.w);
    assert Wanted(t) <= Wanted(s);
  }

  lemma EndWriteCounts(s: State, fates: seq<Fate>)
    requires Control(s) && !s.stop && ExecEnabled(s, fates) && (s.x.pc.ClearWready? || s.x.pc.ClearTxbusy?)
    ensures Measure(DoService(s, fates)) < Measure(s)
  {
    var t := DoService(s, fates);
    assert ReadStage(t.x, t.r) == ReadStage(s.x, s.r);
    assert WriteStage(t.x, t.w) < WriteStage(s.x, s.w);
    assert Wanted(t) <= Wanted(s);
  }

  lemma KickCounts(s: State)
    requires Control(s) && !s.stop && (s.x.pc.Kick? || s.x.pc.TestArmed?)
    ensures Measure(DoPark(s)) < Measure(s)
  {
    SameCyclesCount(s, DoPark(s));
  }

  lemma HaltCounts(s: State)
    requires Control(s) && !s.stop && (s.x.pc.SetHalting? || s.x.pc.HaltRead?)
    ensures Measure(DoPark(s)) < Measure(s)
  {
    var t := DoPark(s);
    assert t.x.sendq == s.x.sendq && t.w == s.w;
    assert ReadStage(t.x, t.r) <= ReadStage(s.x, s.r);
    assert WriteStage(t.x, t.w) == WriteStage(s.x, s.w);
    assert Wanted(t) <= Wanted(s);
  }

  /** A step of kick under the hold, before it has started a WRITE: both cycles stay where they are. */
  ghost predicate KickMoves(s: State, t: State) {
    && t.r == s.r && t.w == s.w && t.stop == s.stop && t.devecb == s.devecb && t.wakeecb == s.wakeecb
    && SameFlags(s.x, t.x) && t.x.evq == s.x.evq && KickHolds(s.x.pc) && KickHolds(t.x.pc)
    && !s.x.pc.SetTxbusy? && !s.x.pc.PostGo? && !t.x.pc.SetTxbusy? && !t.x.pc.PostGo?
    && Rank(t.x.pc) < Rank(s.x.pc)
    && QUEUED * |t.x.sendq| + IN_HAND * One(t.x.hand.Some?) <= QUEUED * |s.x.sendq| + IN_HAND * One(s.x.hand.Some?)
  }

  lemma KickMovesCount(s: State, t: State)
    requires !s.stop && KickMoves(s, t) && !s.x.txbusy && s.x.rhold && Parked(s.r) && !s.r.returnecb && !s.r.rready
    ensures Measure(t) < Measure(s)
  {
    assert ReadStage(t.x, t.r) == ReadStage(s.x, s.r);
    assert WriteStage(t.x, t.w) == WriteStage(s.x, s.w);
    assert Wanted(t) == Wanted(s);
  }

  lemma DequeueCounts(s: State)
    requires Control(s) && !s.stop && s.x.pc.Dequeue?
    ensures Measure(DoSend(s)) < Measure(s)
  {
    KickMovesCount(s, DoSend(s));
  }

  lemma EncodesCounts(s: State, t: State)
    requires Encodes(s, t) && s.x.hand.Some? && WIdle(s.w) && !s.x.txbusy && !s.stop
    ensures Measure(t) < Measure(s)
  {
    assert ReadStage(t.x, t.r) == ReadStage(s.x, s.r);
    assert WriteStage(t.x, t.w) <= WriteStage(s.x, s.w) + 604;
    assert Wanted(t) == Wanted(s);
  }

  lemma EncodeCounts(s: State)
    requires Control(s) && !s.stop && s.x.pc.EncodePacket?
    ensures Measure(DoSend(s)) < Measure(s)
  {
    EncodesCounts(s, DoSend(s));
  }

  lemma HandCounts(s: State)
    requires Control(s) && !s.stop && (s.x.pc.SetTxbusy? || s.x.pc.PostGo?)
    ensures Measure(DoSend(s)) < Measure(s)
  {
    var t := DoSend(s);
    assert ReadStage(t.x, t.r) == ReadStage(s.x, s.r);
    assert WriteStage(t.x, t.w) < WriteStage(s.x, s.w);
    assert Wanted(t) == Wanted(s);
  }

  lemma ReleaseStages(s: State)
    requires Control(s) && !s.stop && AtRelease(s.x.pc)
    ensures ReadStage(DoRelease(s).x, DoRelease(s).r) < ReadStage(s.x, s.r)
  {
  }

  /** A step of the executive that brings the READ further on and changes nothing else that counts. */
  lemma ReadStageCounts(s: State, t: State)
    requires !s.stop && !t.stop && t.r.inq == s.r.inq && t.x.sendq == s.x.sendq && t.x.hand == s.x.hand && t.x.evq == s.x.evq
    requires WriteStage(t.x, t.w) == WriteStage(s.x, s.w) && ReadStage(t.x, t.r) < ReadStage(s.x, s.r) && Wanted(t) == Wanted(s)
    ensures Measure(t) < Measure(s)
  {
  }

  /** Points of the pass behind the dispatch. */
  predicate Dispatched(pc: ExecPc) { AtRelease(pc) || pc.Gate? }

  lemma SameWanted(s: State, t: State)
    requires Dispatched(s.x.pc) && Dispatched(t.x.pc)
    requires t.devecb == s.devecb && t.wakeecb == s.wakeecb && t.r.rready == s.r.rready && t.w.wready == s.w.wready && t.x.evq == s.x.evq
    ensures Wanted(t) == Wanted(s)
  {
  }

  lemma ReleaseWanted(s: State)
    requires AtRelease(s.x.pc)
    ensures Wanted(DoRelease(s)) == Wanted(s)
  {
    SameWanted(s, DoRelease(s));
  }

  lemma ReleaseWrite(s: State)
    requires AtRelease(s.x.pc)
    ensures WriteStage(DoRelease(s).x, DoRelease(s).w) == WriteStage(s.x, s.w)
  {
    assert DoRelease(s).w == s.w && DoRelease(s).x.txbusy == s.x.txbusy;
  }

  lemma ReleaseCounts(s: State)
    requires Control(s) && !s.stop && AtRelease(s.x.pc)
    ensures Measure(DoRelease(s)) < Measure(s)
  {
    ReleaseStages(s);
    ReleaseWanted(s);
    ReleaseWrite(s);
    ReadStageCounts(s, DoRelease(s));
  }

  lemma StopCounts(s: State)
    requires Control(s) && !s.stop && s.x.pc.SetStop?
    ensures Measure(DoShutdown(s)) < Measure(s)
  {
  }

  lemma StopPostsRank(s: State)
    requires s.x.pc.StopRecb? || s.x.pc.StopWecb? || s.x.pc.StopReturn? || s.x.pc.StopGo?
    ensures StopRank(DoShutdown(s).x.pc) < StopRank(s.x.pc)
  {
  }

  lemma StopFreesRank(s: State)
    requires s.x.pc.Join? || s.x.pc.FreeTx? || s.x.pc.Flush?
    ensures StopRank(DoShutdown(s).x.pc) < StopRank(s.x.pc)
  {
  }

  lemma ShutdownLeaves(s: State)
    requires AtShutdown(s.x.pc) && !s.x.pc.SetStop?
    ensures var t := DoShutdown(s); t.stop == s.stop && t.r.pc == s.r.pc && t.w.pc == s.w.pc && t.r.ch == s.r.ch && t.w.ch == s.w.ch
  {
  }

  lemma StoppedExecCounts(s: State, fates: seq<Fate>)
    requires s.stop && Stopping(s.x.pc) && ExecEnabled(s, fates)
    ensures Measure(DoExec(s, fates)) < Measure(s)
  {
    if s.x.pc.Join? || s.x.pc.FreeTx? || s.x.pc.Flush? { StopFreesRank(s); } else { StopPostsRank(s); }
    ShutdownLeaves(s);
    var t := DoExec(s, fates);
    assert t == DoShutdown(s);
    assert ReadLeft(t.r) == ReadLeft(s.r) && WriteLeft(t.w) == WriteLeft(s.w);
  }

  lemma StoppedArmedRank(s: State)
    requires s.stop && ReadEnabled(s) && (Starting(s.r) || Started(s.r)) && !s.r.pc.RExcp?
    ensures ReadLeft(DoRead(s).r) < ReadLeft(s.r) && DoRead(s).r.ch == s.r.ch
  {
  }

  lemma StoppedParkedRank(s: State)
    requires s.stop && ReadEnabled(s) && (InHand(s.r) || Parked(s.r))
    ensures ReadLeft(DoRead(s).r) < ReadLeft(s.r) && DoRead(s).r.ch == s.r.ch
  {
  }

  lemma StoppedExcpRank(s: State)
    requires s.stop && ReadEnabled(s) && s.r.pc.RExcp?
    ensures ReadLeft(DoRead(s).r) < ReadLeft(s.r)
  {
  }

  lemma StoppedChannelRank(s: State)
    requires s.stop && ReadEnabled(s) && (s.r.pc.RExcp? || ReadGone(s.r))
    ensures ReadLeft(DoRead(s).r) < ReadLeft(s.r)
    ensures DoRead(s).r.ch.Posting? ==> s.r.ch.Posting? || s.r.pc.RExcp?
  {
    if s.r.pc.RExcp? { StoppedExcpRank(s); }
  }

  lemma StoppedReadCounts(s: State)
    requires s.stop && ReadEnabled(s)
    ensures Measure(DoRead(s)) < Measure(s)
  {
    if s.r.pc.RExcp? || ReadGone(s.r) { StoppedChannelRank(s); }
    else if InHand(s.r) || Parked(s.r) { StoppedParkedRank(s); }
    else { StoppedArmedRank(s); }
    var t := DoRead(s);
    assert t.x == s.x && t.w == s.w && t.stop == s.stop;
  }

  lemma StoppedWriteCounts(s: State)
    requires s.stop && WriteEnabled(s)
    ensures Measure(DoWrite(s)) < Measure(s)
  {
    var t := DoWrite(s);
    assert t.x == s.x && t.r == s.r && t.stop == s.stop;
    assert WriteLeft(t.w) < WriteLeft(s.w);
  }

  lemma ExecCounts(s: State, fates: seq<Fate>)
    requires Control(s) && !s.stop && ExecEnabled(s, fates)
    ensures Measure(DoExec(s, fates)) < Measure(s)
  {
    match s.x.pc {
      case Gate => GateCounts(s);
      case GateWrite => GateWriteCounts(s);
      case Blocked => WakeupCounts(s);
      case ClearWake | ClearDev => ResetCounts(s);
      case Handlers => DispatchCounts(s);
      case TestReady | TestWready | Reap => TestCounts(s, fates);
      case DecodeBlock => DecodeCounts(s, fates);
      case ClearReady | SetHold => TakeReadCounts(s, fates);
      case ClearWready | ClearTxbusy => EndWriteCounts(s, fates);
      case Kick | TestArmed => KickCounts(s);
      case SetHalting | HaltRead => HaltCounts(s);
      case Dequeue => DequeueCounts(s);
      case EncodePacket => EncodeCounts(s);
      case SetTxbusy | PostGo => HandCounts(s);
      case ClearHold | ClearHalting | PostReturn => ReleaseCounts(s);
      case _ => StopCounts(s);
    }
  }

  /** With nothing new arriving, every internal step of every agent strictly lowers the measure. */
  lemma InternalStepCounts(s: State, a: Action)
    requires Control(s) && Internal(a) && Enabled(s, a)
    ensures Measure(Step(s, a)) < Measure(s)
  {
    match a {
      case ExecStep(fates) => if s.stop { StoppedExecCounts(s, fates); } else { ExecCounts(s, fates); }
      case ReadStep =>
        if s.stop { StoppedReadCounts(s); } else if s.r.pc.RExcp? { ExcpCounts(s); } else { ReadCounts(s); }
      case WriteStep => if s.stop { StoppedWriteCounts(s); } else { WriteCounts(s); }
      case _ => if !s.stop { ChannelCounts(s, a); }
    }
  }

  /** A run of internal steps from a reachable state is no longer than the measure there. */
  lemma {:induction false} InternalRunsEnd(ss: seq<State>, acts: seq<Action>)
    requires Run(ss, acts) && Control(ss[0])
    requires forall i :: 0 <= i < |acts| ==> Internal(acts[i])
    ensures Control(ss[|acts|])
    ensures |acts| + Measure(ss[|acts|]) <= Measure(ss[0])
    decreases |acts|
  {
    if acts != [] {
      var n := |acts| - 1;
      InternalRunsEnd(ss[..n + 1], acts[..n]);
      StepKeeps(ss[n], acts[n]);
      InternalStepCounts(ss[n], acts[n]);
    }
  }

  lemma {:induction false} RunsCompose(ss: seq<State>, acts: seq<Action>, tt: seq<State>, more: seq<Action>)
    requires Run(ss, acts) && Run(tt, more) && tt[0] == ss[|acts|]
    ensures Run(ss + tt[1..], acts + more)
  {
    var us, all := ss + tt[1..], acts + more;
    forall i | 0 <= i < |all|
      ensures Enabled(us[i], all[i]) && us[i + 1] == Step(us[i], all[i])
    {
      if i >= |acts| {
        assert us[i] == tt[i - |acts|] && us[i + 1] == tt[i + 1 - |acts|];
      }
    }
  }

  lemma ReachableOn(ss: seq<State>, acts: seq<Action>)
    requires Run(ss, acts) && Reachable(ss[0])
    ensures Reachable(ss[|acts|])
  {
    var tt, more :| Run(tt, more) && Initial(tt[0]) && tt[|more|] == ss[0];
    RunsCompose(tt, more, ss, acts);
    var us, all := tt + ss[1..], more + acts;
    assert Run(us, all) && Initial(us[0]) && us[|all|] == ss[|acts|];
  }

  /** Where nothing can move and no stop was asked for, the executive is blocked. */
  lemma StuckIsBlocked(e: State)
    requires Reachable(e) && Stuck(e) && !e.stop
    ensures e.x.pc.Blocked?
  {
    ReachableControl(e);
    assert !Enabled(e, ExecStep([]));
    if !e.x.pc.Blocked? { var fates := ExecutiveMoves(e); assert Internal(ExecStep(fates)); }
  }

  lemma StuckIsDown(e: State)
    requires Reachable(e) && Stuck(e) && e.stop
    ensures e.r.pc.REnd? && e.w.pc.WEnd? && e.x.pc.Down?
  {
    ReachableControl(e);
    assert !Enabled(e, ExecStep([]));
    assert !Enabled(e, ReadStep) && !Enabled(e, WriteStep);
  }

  /** From any reachable state, if nothing new arrives, the driver comes to rest after finitely many
      steps in any order; and wherever it rests with its executive blocked, everything accepted has
      been handed to the channel or dropped, nothing is held, and a READ is armed. */
  lemma Quiesces(ss: seq<State>, acts: seq<Action>)
    requires Run(ss, acts) && Reachable(ss[0])
    requires forall i :: 0 <= i < |acts| ==> Internal(acts[i])
    ensures |acts| <= Measure(ss[0])
    ensures var e := ss[|acts|];
      Stuck(e) && !e.stop ==> e.x.pc.Blocked? && e.x.sendq == [] && !e.x.txbusy && e.x.evq == [] && !e.x.rhold && e.r.ch.Out?
    ensures var e := ss[|acts|];
      Stuck(e) && e.stop ==> e.r.pc.REnd? && e.w.pc.WEnd? && e.x.pc.Down?
  {
    ReachableControl(ss[0]);
    InternalRunsEnd(ss, acts);
    var e := ss[|acts|];
    ReachableOn(ss, acts);
    if Stuck(e) {
      if e.stop {
        StuckIsDown(e);
      } else {
        StuckIsBlocked(e);
        NoStall(e);
      }
    }
  }
}
