/** What the slot pool keeps, over every interleaving of clients, server and environment. */
module SlotSafety {
  import opened Options
  import opened Bytes
  import opened SlotRules
  import opened SlotPool

  // ---- ownership ------------------------------------------------------------------------------------

  predicate Owns(c: Client, i: nat) {
    c.alive && SlotOf(c.pc) == Some(i)
  }

  ghost predicate Unowned(clients: seq<Client>, i: nat) {
    forall c :: 0 <= c < |clients| ==> !Owns(clients[c], i)
  }

  /** No two living clients are at one slot. */
  ghost predicate OneOwner(clients: seq<Client>) {
    forall c, d :: 0 <= c < |clients| && 0 <= d < |clients| && c != d && clients[c].alive && SlotOf(clients[c].pc).Some?
      ==> !Owns(clients[d], SlotOf(clients[c].pc).value)
  }

  /** The server is between its compare-and-swap and its release of slot `i`. */
  predicate Reaping(pc: ServerPc, i: nat) {
    pc == Clear(i) || pc == Release(i)
  }

  // ---- a living client and its slot -------------------------------------------------------------------

  predicate Recorded(c: Client, sl: Slot) {
    sl.ascb == c.ascb && sl.asid == c.asid
  }

  /** The server will treat the slot as a work item, so its owner must still be waiting. */
  predicate WorkItem(v: Server, i: nat) {
    v.mode.Up? || (v.mode.Adopting? && i < v.next)
  }

  /** A client whose identity cannot be checked is never posted. */
  predicate Quiet(c: Client, sl: Slot, v: Server) {
    !Checkable(c.ascb, c.asid, v.asvt) ==> !sl.ecb
  }

  predicate OwnerOk(c: Client, sl: Slot, v: Server) {
    match c.pc
    case Out => true
    case Scan(_) => true
    case Back => true
    case Took(i) => sl.state == Claimed
    case Named(i) => sl.state == Claimed && Recorded(c, sl)
    case Counted(i) => sl.state == Claimed && Recorded(c, sl)
    case Ready(i) => sl.state == Claimed && Recorded(c, sl) && sl.data == c.sent && (!v.mode.Stopping? ==> !sl.ecb) && Quiet(c, sl, v)
    case Posting(i) => Published(c, sl, v, i)
    case Waiting(i) => Published(c, sl, v, i)
    case Bail(i) =>
      && (sl.state == Pending || sl.state == Held || sl.state == Done) && Recorded(c, sl) && Quiet(c, sl, v)
      && (WorkItem(v, i) ==> sl.state != Pending) && v.pc != Reply(i)
      && (!v.mode.Stopping? ==> Checkable(c.ascb, c.asid, v.asvt))
    case Leave(i) => sl.state == Done && v.pc != Reply(i) && Recorded(c, sl) && (c.sent, sl.data) in v.served && Quiet(c, sl, v)
  }

  predicate Published(c: Client, sl: Slot, v: Server, i: nat) {
    && (sl.state == Pending || sl.state == Held || sl.state == Done) && Recorded(c, sl) && Quiet(c, sl, v)
    && (sl.state == Pending && WorkItem(v, i) ==> !sl.ecb)
    && (sl.state == Pending && !v.pc.Finish? ==> sl.data == c.sent)
    && (sl.state == Pending && v.pc.Finish? && v.pc.i != i ==> sl.data == c.sent)
    && (sl.state == Pending && v.busy == Some(i) ==> v.land == c.sent)
    && (sl.state == Done ==> (c.sent, sl.data) in v.served && (v.pc == Reply(i) ==> !sl.ecb))
  }

  predicate KnownToAsvt(c: Client, asvt: Asvt) {
    && 0 < c.ascb < ASVT_AVAIL
    && (0 < c.asid <= |asvt| ==> asvt[c.asid - 1] == c.ascb)
  }

  ghost predicate ClientOk(s: Sys, c: nat)
    requires c < |s.clients|
  {
    var me := s.clients[c];
    me.alive ==>
      && KnownToAsvt(me, s.v.asvt)
      && (SlotOf(me.pc).Some? ==> SlotOf(me.pc).value < |s.slots|)
      && OwnerOk(me, if SlotOf(me.pc).Some? then s.slots[SlotOf(me.pc).value] else NoSlot(), s.v)
      && (SlotOf(me.pc).Some? ==> !Reaping(s.v.pc, SlotOf(me.pc).value))
  }

  function NoSlot(): Slot { Slot(Free, 0, 0, [], false, true) }

  // ---- the server ---------------------------------------------------------------------------------------

  ghost predicate ServerOk(s: Sys) {
    var v := s.v;
    && (v.mode.Adopting? ==> v.busy.None? && (v.pc.Scrub? || v.pc.Adopt? || v.pc.Nudge? || v.pc.Clear? || v.pc.Release? || v.pc.Tally? || v.pc.Debit?))
    && ((v.pc.Tally? || v.pc.Debit?) && v.mode.Adopting? ==> v.next < |s.slots|)
    && (v.pc.Scrub? || v.pc.Adopt? || v.pc.Nudge? ==> v.mode.Adopting?)
    && (v.mode.Stopping? ==> v.pc.Idle? && v.busy.None?)
    && v.next <= |s.slots|
    && (v.busy.Some? ==> v.busy.value < |s.slots| && (v.pc.Reply? || s.slots[v.busy.value].state == Pending))
    && match v.pc
       case Idle => true
       case Look(_) => true
       case Scrub => true
       case Tally => true
       case Debit(_) => true
       case Act(i, act) =>
         && i < |s.slots| && s.slots[i].state == Pending && v.busy != Some(i) && act != NoAct
         && (act == Reap || act == ReapBad ==> Unowned(s.clients, i))
       case Finish(i, verdict) =>
         && v.busy == Some(i) && (v.land, s.slots[i].data) in v.served
         && (verdict == Dead ==> Unowned(s.clients, i))
         && (verdict == Live ==> Checkable(s.slots[i].ascb, s.slots[i].asid, v.asvt))
       case Reply(i) => v.busy == Some(i) && s.slots[i].state == Done && Checkable(s.slots[i].ascb, s.slots[i].asid, v.asvt)
       case Clear(i) => i < |s.slots| && s.slots[i].state == Claimed && Unowned(s.clients, i) && (v.mode.Adopting? ==> i == v.next)
       case Release(i) => i < |s.slots| && s.slots[i].state == Claimed && Unowned(s.clients, i) && (v.mode.Adopting? ==> i == v.next)
       case Adopt(i, st, plan) =>
         && i == v.next < |s.slots| && plan != AdoptNone && (s.slots[i].state == st || s.slots[i].state == Free)
         && (plan == AdoptReap ==> Unowned(s.clients, i) && (st == Pending || st == Held || st == Done))
         && (plan == AdoptPost ==> (st == Pending || st == Held) && Checkable(s.slots[i].ascb, s.slots[i].asid, v.asvt))
       case Nudge(i) =>
         i == v.next < |s.slots| && (s.slots[i].state == Held || s.slots[i].state == Free) && Checkable(s.slots[i].ascb, s.slots[i].asid, v.asvt)
  }

  // ---- adoption -----------------------------------------------------------------------------------------

  /** Not woken: whoever is at this point of the routine stays at the slot until somebody posts it. */
  predicate Unwoken(pc: Pc, sl: Slot) {
    !pc.Bail? && !pc.Leave? && (pc.Posting? || pc.Waiting? ==> !sl.ecb)
  }

  /** A scrub that has every owner ahead of it to itself: none has been woken, so the slot it has read
      still is as it read it. */
  ghost predicate Calm(s: Sys) {
    && (forall c :: 0 <= c < |s.clients| && s.clients[c].alive ==>
          var i := SlotOf(s.clients[c].pc);
          i.Some? && s.v.next <= i.value < |s.slots| ==> Unwoken(s.clients[c].pc, s.slots[i.value]))
    && match s.v.pc
       case Adopt(i, st, _) => i < |s.slots| && s.slots[i].state == st
       case Nudge(i) => i < |s.slots| && s.slots[i].state == Held
       case _ => true
  }

  /** Nobody is between the ACTIVE test and the claim, so no slot freed meanwhile finds a new owner. */
  ghost predicate NoneScanning(clients: seq<Client>) {
    forall c :: 0 <= c < |clients| && clients[c].alive ==> !clients[c].pc.Scan?
  }

  ghost predicate AdoptsWell(s: Sys) {
    s.v.mode.Adopting? ==>
      Calm(s) || (NoneScanning(s.clients) && (s.v.pc.Tally? || s.v.pc.Debit? ==> s.v.next < |s.slots| && s.slots[s.v.next].state == Free))
  }

  ghost predicate Inv(s: Sys) {
    && (!s.v.mode.Stopping? ==> s.v.ptr)
    && (forall c :: 0 <= c < |s.clients| ==> ClientOk(s, c))
    && OneOwner(s.clients)
    && ServerOk(s)
    && AdoptsWell(s)
  }

  // ---- clients' steps ---------------------------------------------------------------------------------------

  /** A client step leaves every other client's slot alone. */
  lemma OthersUnmoved(s: Sys, c: nat, request: Octets, d: nat)
    requires Inv(s) && ClientEnabled(s, c) && d < |s.clients| && d != c
    ensures ClientOk(Step(s, ClientStep(c, request)), d)
  {
    assert ClientOk(s, c) && ClientOk(s, d);
    var (me, w) := ClientMove(s, c, request);
    if s.clients[d].alive && SlotOf(s.clients[d].pc).Some? && w.Some? {
      assert w.value.0 != SlotOf(s.clients[d].pc).value by {
        if SlotOf(s.clients[c].pc).Some? {
          assert !Owns(s.clients[c], SlotOf(s.clients[d].pc).value);
        }
      }
    }
  }

  lemma ClaimOk(s: Sys, c: nat, request: Octets)
    requires Inv(s) && ClientEnabled(s, c) && (s.clients[c].pc.Out? || s.clients[c].pc.Scan?)
    ensures ClientOk(Step(s, ClientStep(c, request)), c)
  {
    assert ClientOk(s, c);
  }

  predicate Staging(pc: Pc) { pc.Took? || pc.Named? || pc.Counted? || pc.Ready? }

  lemma StageOk(s: Sys, c: nat, request: Octets)
    requires Inv(s) && ClientEnabled(s, c) && Staging(s.clients[c].pc)
    ensures ClientOk(Step(s, ClientStep(c, request)), c)
  {
    assert ClientOk(s, c);
  }

  lemma WaitOk(s: Sys, c: nat, request: Octets)
    requires Inv(s) && ClientEnabled(s, c) && (s.clients[c].pc.Posting? || s.clients[c].pc.Waiting? || s.clients[c].pc.Bail? || s.clients[c].pc.Leave? || s.clients[c].pc.Back?)
    ensures ClientOk(Step(s, ClientStep(c, request)), c)
  {
    assert ClientOk(s, c);
  }

  /** A FREE slot is nobody's. */
  lemma FreeUnowned(s: Sys, i: nat)
    requires Inv(s) && i < |s.slots| && s.slots[i].state == Free
    ensures Unowned(s.clients, i)
  {
    forall c | 0 <= c < |s.clients|
      ensures !Owns(s.clients[c], i)
    {
      assert ClientOk(s, c);
    }
  }

  lemma ClientKeepsOneOwner(s: Sys, c: nat, request: Octets)
    requires Inv(s) && ClientEnabled(s, c)
    ensures OneOwner(Step(s, ClientStep(c, request)).clients)
  {
    var t := Step(s, ClientStep(c, request));
    var me := s.clients[c];
    if me.pc.Scan? && me.pc.k < |s.slots| && s.slots[me.pc.k].state == Free {
      FreeUnowned(s, me.pc.k);
    }
    assert forall d :: 0 <= d < |s.clients| && d != c ==> t.clients[d] == s.clients[d];
  }

  lemma ClientKeepsUnowned(s: Sys, c: nat, request: Octets, i: nat)
    requires Inv(s) && ClientEnabled(s, c) && Unowned(s.clients, i) && i < |s.slots| && s.slots[i].state != Free
    ensures Unowned(Step(s, ClientStep(c, request)).clients, i)
  {
    var t := Step(s, ClientStep(c, request));
    assert forall d :: 0 <= d < |s.clients| && d != c ==> t.clients[d] == s.clients[d];
    assert !Owns(s.clients[c], i);
  }

  lemma ClientKeepsCalm(s: Sys, c: nat, request: Octets)
    requires Inv(s) && ClientEnabled(s, c) && s.v.mode.Adopting? && Calm(s)
    ensures Calm(Step(s, ClientStep(c, request)))
  {
    var t := Step(s, ClientStep(c, request));
    var (me, w) := ClientMove(s, c, request);
    assert ClientOk(s, c);
    forall d | 0 <= d < |t.clients| && t.clients[d].alive && SlotOf(t.clients[d].pc).Some? && s.v.next <= SlotOf(t.clients[d].pc).value < |t.slots|
      ensures Unwoken(t.clients[d].pc, t.slots[SlotOf(t.clients[d].pc).value])
    {
      if d != c {
        assert ClientOk(s, d);
        if w.Some? && SlotOf(s.clients[c].pc).Some? { assert !Owns(s.clients[c], SlotOf(s.clients[d].pc).value); }
      }
    }
  }

  lemma ClientKeepsAdoption(s: Sys, c: nat, request: Octets)
    requires Inv(s) && ClientEnabled(s, c)
    ensures AdoptsWell(Step(s, ClientStep(c, request)))
  {
    var t := Step(s, ClientStep(c, request));
    if s.v.mode.Adopting? {
      if Calm(s) { ClientKeepsCalm(s, c, request); }
      else {
        assert ClientOk(s, c);
        assert forall d :: 0 <= d < |s.clients| && d != c ==> t.clients[d] == s.clients[d];
      }
    }
  }

  lemma ClientKeepsScrub(s: Sys, c: nat, request: Octets)
    requires Inv(s) && ClientEnabled(s, c) && s.v.mode.Adopting? && (s.v.pc.Adopt? || s.v.pc.Nudge?)
    ensures ServerOk(Step(s, ClientStep(c, request)))
  {
    assert ClientOk(s, c);
    ClientKeepsAdoption(s, c, request);
    if s.v.pc.Adopt? && s.v.pc.plan == AdoptReap && s.slots[s.v.pc.i].state != Free { ClientKeepsUnowned(s, c, request, s.v.pc.i); }
  }

  lemma ClientKeepsReap(s: Sys, c: nat, request: Octets)
    requires Inv(s) && ClientEnabled(s, c) && (s.v.pc.Clear? || s.v.pc.Release?)
    ensures ServerOk(Step(s, ClientStep(c, request)))
  {
    assert ClientOk(s, c);
    ClientKeepsUnowned(s, c, request, s.v.pc.i);
  }

  lemma ClientKeepsVerdict(s: Sys, c: nat, request: Octets)
    requires Inv(s) && ClientEnabled(s, c) && (s.v.pc.Act? || s.v.pc.Finish?)
    ensures ServerOk(Step(s, ClientStep(c, request)))
  {
    assert ClientOk(s, c);
    if Unowned(s.clients, s.v.pc.i) { ClientKeepsUnowned(s, c, request, s.v.pc.i); }
  }

  lemma ClientKeepsIdle(s: Sys, c: nat, request: Octets)
    requires Inv(s) && ClientEnabled(s, c)
    requires s.v.pc.Idle? || s.v.pc.Look? || s.v.pc.Reply? || s.v.pc.Scrub? || s.v.pc.Tally? || s.v.pc.Debit?
    ensures ServerOk(Step(s, ClientStep(c, request)))
  {
    assert ClientOk(s, c);
  }

  lemma ClientKeepsServer(s: Sys, c: nat, request: Octets)
    requires Inv(s) && ClientEnabled(s, c)
    ensures ServerOk(Step(s, ClientStep(c, request)))
  {
    match s.v.pc {
      case Clear(_) | Release(_) => ClientKeepsReap(s, c, request);
      case Act(_, _) | Finish(_, _) => ClientKeepsVerdict(s, c, request);
      case Adopt(_, _, _) | Nudge(_) => ClientKeepsScrub(s, c, request);
      case _ => ClientKeepsIdle(s, c, request);
    }
  }

  lemma ClientKeeps(s: Sys, c: nat, request: Octets)
    requires Inv(s) && ClientEnabled(s, c)
    ensures Inv(Step(s, ClientStep(c, request)))
  {
    var t := Step(s, ClientStep(c, request));
    forall d | 0 <= d < |s.clients|
      ensures ClientOk(t, d)
    {
      if d != c { OthersUnmoved(s, c, request, d); }
      else if s.clients[c].pc.Out? || s.clients[c].pc.Scan? { ClaimOk(s, c, request); }
      else if Staging(s.clients[c].pc) { StageOk(s, c, request); }
      else { WaitOk(s, c, request); }
    }
    ClientKeepsOneOwner(s, c, request);
    ClientKeepsServer(s, c, request);
    ClientKeepsAdoption(s, c, request);
  }

  // ---- the server's steps -----------------------------------------------------------------------------------

  /** A living client's recorded identity is never judged dead. */
  lemma LiveNotDead(s: Sys, c: nat, i: nat)
    requires Inv(s) && c < |s.clients| && i < |s.slots| && Owns(s.clients[c], i) && s.slots[i].state != Claimed
    ensures Ident(s.slots[i], s.v.asvt) != Dead
  {
    assert ClientOk(s, c);
  }

  lemma DeadUnowned(s: Sys, i: nat)
    requires Inv(s) && i < |s.slots| && s.slots[i].state != Claimed && Ident(s.slots[i], s.v.asvt) == Dead
    ensures Unowned(s.clients, i)
  {
    forall c | 0 <= c < |s.clients|
      ensures !Owns(s.clients[c], i)
    {
      if Owns(s.clients[c], i) { LiveNotDead(s, c, i); }
    }
  }

  /** The slot the drain or the scrub is about to judge. */
  function Judged(v: Server): Option<nat> {
    match v.pc case Look(k) => Some(k) case Scrub => Some(v.next) case _ => None
  }

  /** A published slot whose guard word is damaged is about to be judged. */
  predicate JudgesDamage(s: Sys) {
    var k := Judged(s.v);
    k.Some? && k.value < |s.slots| && s.v.busy != k && s.slots[k.value].state == Pending && !s.slots[k.value].guard
  }

  /** Nobody the server could find to be alive is at that slot. */
  ghost predicate Harmless(s: Sys) {
    JudgesDamage(s) ==>
      forall c :: 0 <= c < |s.clients| && Owns(s.clients[c], Judged(s.v).value) ==> !Checkable(s.clients[c].ascb, s.clients[c].asid, s.v.asvt)
  }

  lemma DamagedUnowned(s: Sys)
    requires Inv(s) && Harmless(s) && JudgesDamage(s) && s.v.pc.Look?
    requires SlotAction(Pending, Ident(s.slots[s.v.pc.k], s.v.asvt), false, s.v.ptr) == ReapBad
    ensures Unowned(s.clients, s.v.pc.k)
  {
    forall c | 0 <= c < |s.clients|
      ensures !Owns(s.clients[c], s.v.pc.k)
    {
      assert ClientOk(s, c);
    }
  }

  lemma LookKeeps(s: Sys)
    requires Inv(s) && (s.v.pc.Idle? || s.v.pc.Look?) && ServerEnabled(s) && Harmless(s)
    ensures Inv(Step(s, ServerStep))
  {
    var t := Step(s, ServerStep);
    assert t.clients == s.clients && t.slots == s.slots;
    if t.v.pc.Act? && t.v.pc.act == Reap { DeadUnowned(s, t.v.pc.i); }
    if t.v.pc.Act? && t.v.pc.act == ReapBad { DamagedUnowned(s); }
    forall c | 0 <= c < |s.clients| ensures ClientOk(t, c) { assert ClientOk(s, c); }
  }

  lemma ActKeeps(s: Sys)
    requires Inv(s) && s.v.pc.Act? && ServerEnabled(s)
    ensures Inv(Step(s, ServerStep))
  {
    var t := Step(s, ServerStep);
    assert t.clients == s.clients;
    forall c | 0 <= c < |s.clients| ensures ClientOk(t, c) { assert ClientOk(s, c) && !((s.v.pc.act == Reap || s.v.pc.act == ReapBad) && Owns(s.clients[c], s.v.pc.i)); }
  }

  lemma FinishKeeps(s: Sys)
    requires Inv(s) && (s.v.pc.Finish? || s.v.pc.Reply?) && ServerEnabled(s)
    ensures Inv(Step(s, ServerStep))
  {
    var t := Step(s, ServerStep);
    assert t.clients == s.clients;
    forall c | 0 <= c < |s.clients| ensures ClientOk(t, c) {
      assert ClientOk(s, c);
      if s.v.pc.Finish? && s.v.pc.verdict == Dead { assert !Owns(s.clients[c], s.v.pc.i); }
    }
  }

  lemma TallyKeeps(s: Sys)
    requires Inv(s) && (s.v.pc.Tally? || s.v.pc.Debit?) && ServerEnabled(s)
    ensures Inv(Step(s, ServerStep))
  {
    var t := Step(s, ServerStep);
    assert t.clients == s.clients && t.slots == s.slots;
    forall c | 0 <= c < |s.clients| ensures ClientOk(t, c) { assert ClientOk(s, c); }
  }

  lemma ReapKeeps(s: Sys)
    requires Inv(s) && (s.v.pc.Clear? || s.v.pc.Release?) && ServerEnabled(s)
    ensures Inv(Step(s, ServerStep))
  {
    var t := Step(s, ServerStep);
    assert t.clients == s.clients;
    forall c | 0 <= c < |s.clients| ensures ClientOk(t, c) { assert ClientOk(s, c) && !Owns(s.clients[c], s.v.pc.i); }
  }

  lemma ScrubKeeps(s: Sys)
    requires Inv(s) && s.v.pc.Scrub? && ServerEnabled(s) && Harmless(s)
    ensures Inv(Step(s, ServerStep))
  {
    var t := Step(s, ServerStep);
    assert t.clients == s.clients && t.slots == s.slots;
    if t.v.pc.Adopt? && t.v.pc.plan == AdoptReap { DeadUnowned(s, t.v.pc.i); }
    forall c | 0 <= c < |s.clients| ensures ClientOk(t, c) {
      assert ClientOk(s, c);
      if s.v.next < |s.slots| && Owns(s.clients[c], s.v.next) && s.slots[s.v.next].state != Claimed { LiveNotDead(s, c, s.v.next); }
    }
  }

  lemma AdoptReapKeeps(s: Sys)
    requires Inv(s) && s.v.pc.Adopt? && s.v.pc.plan == AdoptReap && ServerEnabled(s)
    ensures Inv(Step(s, ServerStep))
  {
    var t := Step(s, ServerStep);
    assert t.clients == s.clients;
    forall c | 0 <= c < |s.clients| ensures ClientOk(t, c) { assert ClientOk(s, c) && !Owns(s.clients[c], s.v.pc.i); }
  }

  lemma AdoptPostKeeps(s: Sys)
    requires Inv(s) && s.v.pc.Adopt? && s.v.pc.plan == AdoptPost && ServerEnabled(s)
    ensures Inv(Step(s, ServerStep))
  {
    var t := Step(s, ServerStep);
    assert t.clients == s.clients;
    forall c | 0 <= c < |s.clients| ensures ClientOk(t, c) { assert ClientOk(s, c); }
  }

  lemma NudgeKeeps(s: Sys)
    requires Inv(s) && s.v.pc.Nudge? && ServerEnabled(s)
    ensures Inv(Step(s, ServerStep))
  {
    var t := Step(s, ServerStep);
    assert t.clients == s.clients;
    forall c | 0 <= c < |s.clients| ensures ClientOk(t, c) { assert ClientOk(s, c); }
  }

  lemma CompletesKeeps(s: Sys, result: Octets)
    requires Inv(s) && Enabled(s, Completes(result))
    ensures Inv(Step(s, Completes(result)))
  {
    var t := Step(s, Completes(result));
    var i := s.v.busy.value;
    assert t.clients == s.clients;
    if t.v.pc.verdict == Dead { DeadUnowned(s, i); }
    forall c | 0 <= c < |s.clients| ensures ClientOk(t, c) { assert ClientOk(s, c); }
  }

  lemma ServerKeeps(s: Sys)
    requires Inv(s) && ServerEnabled(s) && Harmless(s)
    ensures Inv(Step(s, ServerStep))
  {
    match s.v.pc {
      case Idle | Look(_) => LookKeeps(s);
      case Act(_, _) => ActKeeps(s);
      case Finish(_, _) | Reply(_) => FinishKeeps(s);
      case Clear(_) | Release(_) => ReapKeeps(s);
      case Tally | Debit(_) => TallyKeeps(s);
      case Scrub => ScrubKeeps(s);
      case Adopt(_, _, plan) => if plan == AdoptReap { AdoptReapKeeps(s); } else { AdoptPostKeeps(s); }
      case Nudge(_) => NudgeKeeps(s);
    }
  }

  // ---- the environment --------------------------------------------------------------------------------------

  lemma PostsKeep(s: Sys, a: Action)
    requires Inv(s) && Enabled(s, a) && (a.Wake? || a.Overrun?)
    ensures Inv(Step(s, a))
  {
    var t := Step(s, a);
    forall c | 0 <= c < |s.clients| ensures ClientOk(t, c) { assert ClientOk(s, c); }
  }

  lemma StopKeeps(s: Sys)
    requires Inv(s) && Enabled(s, Stop)
    ensures Inv(Step(s, Stop))
  {
    var t := Step(s, Stop);
    assert t.clients == s.clients && t.slots == s.slots;
    forall c | 0 <= c < |s.clients| ensures ClientOk(t, c) { assert ClientOk(s, c); }
  }

  lemma PostFailsKeeps(s: Sys, c: nat)
    requires Inv(s) && Enabled(s, PostFails(c))
    ensures Inv(Step(s, PostFails(c)))
  {
    var t := Step(s, PostFails(c));
    assert t.v == s.v && t.slots == s.slots;
    forall d | 0 <= d < |s.clients| ensures ClientOk(t, d) { assert ClientOk(s, d); }
  }

  lemma LivesKeeps(s: Sys, a: Action)
    requires Inv(s) && Enabled(s, a) && (a.Dies? || a.Born?)
    ensures Inv(Step(s, a))
  {
    var t := Step(s, a);
    assert t.slots == s.slots && t.v == s.v;
    forall c | 0 <= c < |s.clients| ensures ClientOk(t, c) { assert ClientOk(s, c); }
    forall i | Unowned(s.clients, i) ensures Unowned(t.clients, i) {
      forall c | 0 <= c < |s.clients| ensures !Owns(t.clients[c], i) { assert !Owns(s.clients[c], i); }
    }
  }

  lemma AsvtKeeps(s: Sys, a: Action)
    requires Inv(s) && Enabled(s, a) && a.AsvtMoves?
    ensures Inv(Step(s, a))
  {
    var t := Step(s, a);
    assert t.slots == s.slots && t.clients == s.clients;
    forall c | 0 <= c < |s.clients| ensures ClientOk(t, c) { assert ClientOk(s, c); }
  }

  /** What a stopped pool must have come to before another instance may take it over with clients still
      inside: nobody between the ACTIVE test and the claim, nobody woken before it published, and nobody
      whose identity cannot be checked on the way out of a failed POST. */
  ghost predicate Settled(s: Sys) {
    forall c :: 0 <= c < |s.clients| && s.clients[c].alive ==>
      && !s.clients[c].pc.Scan?
      && (s.clients[c].pc.Ready? && s.clients[c].pc.i < |s.slots| ==> !s.slots[s.clients[c].pc.i].ecb)
      && (s.clients[c].pc.Bail? ==> Checkable(s.clients[c].ascb, s.clients[c].asid, s.v.asvt))
  }

  /** Inside the routine and counted in flight. */
  predicate Inside(pc: Pc) {
    pc.Counted? || pc.Ready? || pc.Posting? || pc.Waiting? || pc.Bail? || pc.Leave? || pc.Back?
  }

  ghost predicate NobodyInside(clients: seq<Client>) {
    forall c :: 0 <= c < |clients| && clients[c].alive ==> !Inside(clients[c].pc)
  }

  /** The pool can be taken over. */
  ghost predicate Adoptable(s: Sys) {
    Settled(s) || NobodyInside(s.clients)
  }

  lemma RestampKeeps(s: Sys)
    requires Inv(s) && Enabled(s, Restamp) && Adoptable(s)
    ensures Inv(Step(s, Restamp))
  {
    var t := Step(s, Restamp);
    forall c | 0 <= c < |s.clients| ensures ClientOk(t, c) { assert ClientOk(s, c); }
    assert Calm(t) || NoneScanning(t.clients);
  }

  /** A step that no judgement of a damaged slot and no take-over of an unsettled pool is part of. */
  ghost predicate Proper(s: Sys, a: Action) {
    (a.ServerStep? ==> Harmless(s)) && (a.Restamp? ==> Adoptable(s))
  }

  /** Every proper step of every party keeps the pool's invariant. */
  lemma StepKeeps(s: Sys, a: Action)
    requires Inv(s) && Enabled(s, a) && Proper(s, a)
    ensures Inv(Step(s, a))
  {
    match a {
      case ClientStep(c, request) => ClientKeeps(s, c, request);
      case ServerStep => ServerKeeps(s);
      case Completes(result) => CompletesKeeps(s, result);
      case Restamp => RestampKeeps(s);
      case Stop => StopKeeps(s);
      case PostFails(c) => PostFailsKeeps(s, c);
      case Wake(_) | Overrun(_) => PostsKeep(s, a);
      case Dies(_) | Born(_, _, _) => LivesKeeps(s, a);
      case AsvtMoves(_, _) => AsvtKeeps(s, a);
    }
  }

  /** A fresh pool: every slot free, no client inside, the server serving. */
  ghost predicate Fresh(s: Sys) {
    && (forall i :: 0 <= i < |s.slots| ==> s.slots[i].state == Free && s.slots[i].guard)
    && (forall c :: 0 <= c < |s.clients| ==> s.clients[c].pc.Out? && (s.clients[c].alive ==> KnownToAsvt(s.clients[c], s.v.asvt)))
    && s.v.mode.Up? && s.v.pc.Idle? && s.v.busy.None? && s.v.ptr && s.v.next <= |s.slots| && s.inflight == 0
  }

  lemma FreshInv(s: Sys)
    requires Fresh(s)
    ensures Inv(s)
  {
    forall c | 0 <= c < |s.clients| ensures ClientOk(s, c) { assert s.clients[c].pc.Out?; }
  }
}
