/** Pair sequencing, halts and the absence of stalls, in every reachable state of the CTCI driver. */
module CtciSafety {
  import opened Codec
  import opened CtciMachine
  import opened CtciInvariant

  lemma {:induction false} RunControl(ss: seq<State>, acts: seq<Action>, n: nat)
    requires Run(ss, acts) && Initial(ss[0]) && n <= |acts|
    ensures Control(ss[n])
  {
    if n == 0 {
      InitControl(ss[0]);
    } else {
      RunControl(ss, acts, n - 1);
      StepKeeps(ss[n - 1], acts[n - 1]);
    }
  }

  lemma ReachableControl(s: State)
    requires Reachable(s)
    ensures Control(s)
  {
    var ss, acts :| Run(ss, acts) && Initial(ss[0]) && ss[|acts|] == s;
    RunControl(ss, acts, |acts|);
  }

  // ---- pair sequencing --------------------------------------------------------------------------------

  /** The read subtask can start no further READ: it is parked on an unposted `returnecb`, or a stop
      has been requested and whatever it does next it leaves through CLOSE. */
  ghost predicate ReadParkedFor(s: State) {
    if s.stop then Parked(s.r) || s.r.pc.RTop? || ReadGone(s.r)
    else Parked(s.r) && !s.r.returnecb
  }

  /** A READ and a WRITE are never on the shared channel together, whatever the interleaving and
      wherever a stop falls: a WRITE starts only with no READ outstanding and the read subtask
      parked, and a READ starts only with no WRITE outstanding or promised. */
  lemma PairSequencing(s: State)
    requires Reachable(s)
    ensures !(s.r.ch.Out? && s.w.ch.Out?)
    ensures s.w.pc.WExcp? ==> s.x.txbusy && s.x.rhold && s.r.ch.Idle? && ReadParkedFor(s)
    ensures s.r.pc.RExcp? ==> !s.x.txbusy && s.w.ch.Idle?
    ensures s.x.txbusy ==> s.x.rhold
  {
    ReachableControl(s);
  }

  lemma IdleReadWaits(s: State)
    requires ReadEnabled(s) && s.r.ch.Idle? && (s.r.pc.RTop? || s.r.pc.RClose? || Parked(s.r))
    ensures DoRead(s).h.started == s.h.started && DoRead(s).r.ch.Idle?
  {
  }

  lemma IdleShutdownStays(s: State)
    requires AtShutdown(s.x.pc) && s.r.ch.Idle?
    ensures DoShutdown(s).h.started == s.h.started && DoShutdown(s).r.ch.Idle?
  {
  }

  lemma IdleWriteStays(s: State)
    requires WriteEnabled(s)
    ensures DoWrite(s).h.started == s.h.started && DoWrite(s).r == s.r
  {
  }

  lemma IdleChannelStays(s: State, a: Action)
    requires Enabled(s, a) && s.r.ch.Idle? && !a.ExecStep? && !a.ReadStep? && !a.WriteStep?
    ensures Step(s, a).h.started == s.h.started && Step(s, a).r.ch.Idle?
  {
  }

  lemma HeldStays(s: State, a: Action)
    requires Enabled(s, a) && Stopping(s.x.pc) && s.r.ch.Idle? && (s.r.pc.RTop? || ReadGone(s.r) || Parked(s.r))
    ensures Step(s, a).h.started == s.h.started && Step(s, a).r.ch.Idle?
  {
    match a {
      case ExecStep(_) => IdleShutdownStays(s);
      case ReadStep => IdleReadWaits(s);
      case WriteStep => IdleWriteStays(s);
      case _ => IdleChannelStays(s, a);
    }
  }

  lemma ShutdownHolds(s: State)
    requires AtShutdown(s.x.pc) && s.stop && s.x.rhold
    ensures DoShutdown(s).stop && DoShutdown(s).x.rhold
  {
  }

  lemma SubtasksHold(s: State, a: Action)
    requires Enabled(s, a) && (a.ReadStep? || a.WriteStep?)
    ensures Step(s, a).x == s.x && Step(s, a).stop == s.stop
  {
  }

  lemma StopHolds(s: State, a: Action)
    requires Enabled(s, a) && s.stop && Stopping(s.x.pc) && s.x.rhold
    ensures Step(s, a).stop && Step(s, a).x.rhold
  {
    if a.ExecStep? { ShutdownHolds(s); } else if a.ReadStep? || a.WriteStep? { SubtasksHold(s, a); }
  }

  lemma {:induction false} HeldForGood(ss: seq<State>, acts: seq<Action>, n: nat)
    requires Run(ss, acts) && Control(ss[0]) && ss[0].stop && ss[0].x.rhold && n <= |acts|
    ensures Control(ss[n]) && ss[n].stop && ss[n].x.rhold && ss[n].r.ch.Idle? && ss[n].h.started == ss[0].h.started
  {
    if n > 0 {
      HeldForGood(ss, acts, n - 1);
      StepKeeps(ss[n - 1], acts[n - 1]);
      StopHolds(ss[n - 1], acts[n - 1]);
      HeldStays(ss[n - 1], acts[n - 1]);
    }
  }

  /** Once the READ is held under a stop, no READ ever starts again, on any continuation. */
  lemma NoReadAfterStop(ss: seq<State>, acts: seq<Action>, n: nat)
    requires Run(ss, acts) && Reachable(ss[0]) && ss[0].stop && ss[0].x.rhold && n <= |acts|
    ensures ss[n].h.started == ss[0].h.started && ss[n].r.ch.Idle? && ss[n].x.rhold
  {
    ReachableControl(ss[0]);
    HeldForGood(ss, acts, n);
  }

  // ---- halts -------------------------------------------------------------------------------------------

  /** A halt is issued only for a READ that is outstanding or whose completion is already on its way
      to `service`, and never twice for one READ. */
  lemma HaltIsAimed(s: State)
    requires Reachable(s) && s.x.pc.HaltRead?
    ensures s.h.lastHalt < s.h.started
    ensures (Armed(s.r) && (s.r.ch.Out? || s.r.ch.Posting? || s.r.recb)) || InHand(s.r) || (Parked(s.r) && s.r.rready)
  {
    ReachableControl(s);
  }

  // ---- no stall ----------------------------------------------------------------------------------------

  ghost predicate Stuck(s: State) {
    forall a: Action :: Internal(a) ==> !Enabled(s, a)
  }

  /** When the executive is blocked in WAIT and no internal step is possible, nothing is left to do:
      every accepted packet has been sent or dropped, no read is held back, and a READ is armed to
      take the next frame. */
  lemma NoStall(s: State)
    requires Reachable(s) && !s.stop && s.x.pc.Blocked? && Stuck(s)
    ensures s.x.sendq == [] && !s.x.txbusy && s.x.evq == []
    ensures !s.x.rhold && !s.r.rready && !s.w.wready
    ensures s.r.rarmed && s.r.ch.Out? && s.r.inq == []
  {
    ReachableControl(s);
    assert !Enabled(s, ReadStep) && !Enabled(s, WriteStep) && !Enabled(s, ExecStep([]));
    assert !Enabled(s, ReadPosts) && !Enabled(s, WritePosts) && !Enabled(s, WriteEnds(0));
  }

  lemma {:induction false} NoneTaken(fates: seq<Fate>)
    requires forall i :: 0 <= i < |fates| ==> fates[i].NoBuffer?
    ensures Ups(fates) == 0
  {
    if fates != [] { NoneTaken(fates[..|fates| - 1]); }
  }

  /** The executive is never stuck anywhere but in WAIT, in the join, or after shutdown: whatever it finds
      free, it can take its next step. */
  lemma ExecutiveMoves(s: State) returns (fates: seq<Fate>)
    requires Reachable(s) && !s.x.pc.Blocked? && !s.x.pc.Join? && !s.x.pc.Down?
    ensures Enabled(s, ExecStep(fates))
  {
    ReachableControl(s);
    fates := [];
    if s.x.pc.DecodeBlock? && s.r.rpost == POST_NORMAL && s.r.rlen <= |s.r.rbuf| {
      fates := seq(|Decode(s.r.rbuf[..s.r.rlen])|, i => NoBuffer);
      NoneTaken(fates);
    }
  }

  /** A stop needs no timeout to take effect: until both subtasks have ended, one of them can move. */
  lemma StopReachesBoth(s: State)
    requires Reachable(s) && s.x.pc.Join? && !(s.r.pc.REnd? && s.w.pc.WEnd?)
    ensures Enabled(s, ReadStep) || Enabled(s, WriteStep)
  {
    ReachableControl(s);
  }

  /** Every pass that reaches the WAIT gate leaves the READ armed or released, or a WRITE in flight
      whose completion will run the next pass. */
  lemma AfterKick(s: State)
    requires Reachable(s) && !s.stop && Between(s.x.pc)
    ensures s.x.rhold ==> s.x.txbusy
    ensures s.x.txbusy && WIdle(s.w) && !s.w.txgoecb ==> s.w.wready && (s.devecb || s.w.pc.WPostReady?)
  {
    ReachableControl(s);
  }
}
