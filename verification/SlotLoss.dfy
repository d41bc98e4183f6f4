/** How the slot pool's promises are lost: a damaged guard word judged under a living client, a pool taken
    over with a woken client inside and another on its way in, a decrement that loses an update. */
module SlotLoss {
  import opened Options
  import opened Bytes
  import opened SlotRules
  import opened SlotPool
  import opened SlotSafety
  import opened SlotTheorems

  /** A run from `s` to `t`. */
  ghost predicate Path(ss: seq<Sys>, acts: seq<Action>, s: Sys, t: Sys) {
    Run(ss, acts) && ss[0] == s && ss[|acts|] == t
  }

  lemma Go(ss: seq<Sys>, acts: seq<Action>, s: Sys, t: Sys, a: Action) returns (tt: seq<Sys>, more: seq<Action>)
    requires Path(ss, acts, s, t) && Enabled(t, a)
    ensures Path(tt, more, s, Step(t, a)) && more == acts + [a]
  {
    tt, more := ss + [Step(t, a)], acts + [a];
  }

  lemma JoinLast(ss: seq<Sys>, acts: seq<Action>, tt: seq<Sys>, more: seq<Action>, s: Sys, t: Sys, u: Sys) returns (us: seq<Sys>, all: seq<Action>)
    requires Path(ss, acts, s, t) && Path(tt, more, t, u) && more != []
    ensures Path(us, all, s, u) && all == acts + more && us[|all| - 1] == tt[|more| - 1]
  {
    us, all := ss + tt[1..], acts + more;
    forall i | 0 <= i < |all| ensures Enabled(us[i], all[i]) && us[i + 1] == Step(us[i], all[i]) {
      if i >= |acts| { assert us[i] == tt[i - |acts|] && us[i + 1] == tt[i + 1 - |acts|]; }
    }
  }

  lemma Join(ss: seq<Sys>, acts: seq<Action>, tt: seq<Sys>, more: seq<Action>, s: Sys, t: Sys, u: Sys) returns (us: seq<Sys>, all: seq<Action>)
    requires Path(ss, acts, s, t) && Path(tt, more, t, u)
    ensures Path(us, all, s, u) && all == acts + more
  {
    if more == [] {
      us, all := ss, acts;
    } else {
      us, all := JoinLast(ss, acts, tt, more, s, t, u);
    }
  }

  predicate ByServer(acts: seq<Action>) { forall i :: 0 <= i < |acts| ==> acts[i] == ServerStep }

  /** The server, the clients and the executive at work: nobody dies, no guard word is overrun. */
  predicate Works(acts: seq<Action>) {
    forall i :: 0 <= i < |acts| ==> acts[i].ServerStep? || acts[i].ClientStep? || acts[i].Completes?
  }

  // ---- the server left to itself ---------------------------------------------------------------------------

  /** Nothing of this happens to the clients, to slot `i` or to what the server judges by. */
  ghost predicate Spares(s: Sys, t: Sys, i: nat) {
    && t.clients == s.clients && |t.slots| == |s.slots| && i < |s.slots| && t.slots[i] == s.slots[i]
    && t.v.mode == s.v.mode && t.v.asvt == s.v.asvt && t.v.ptr == s.v.ptr
    && (t.v.busy == s.v.busy || (t.v.busy.Some? && t.v.busy != Some(i) && t.v.busy.value < |t.slots|))
  }

  /** Nothing the drain would dispatch. */
  predicate Passed(sl: Slot, asvt: Asvt) {
    sl.state == Pending && Ident(sl, asvt) == Live ==> !sl.guard
  }

  predicate PassedBelow(s: Sys, n: nat)
    requires n <= |s.slots|
  {
    forall j :: 0 <= j < n ==> Passed(s.slots[j], s.v.asvt)
  }

  /** The tail of a reap: clear, free, give the count back. */
  lemma ReapRun(s: Sys, j: nat) returns (ss: seq<Sys>, acts: seq<Action>, t: Sys)
    requires s.v.pc == Clear(j) && j < |s.slots|
    ensures Path(ss, acts, s, t) && ByServer(acts) && t.clients == s.clients && t.v == Reaped(s.v)
    ensures |t.slots| == |s.slots| && t.slots == s.slots[j := t.slots[j]] && t.slots[j].state == Free && t.slots[j].data == []
  {
    ss, acts := [s], [];
    ss, acts := Go(ss, acts, s, s, ServerStep);
    var a := Step(s, ServerStep);
    ss, acts := Go(ss, acts, s, a, ServerStep);
    var b := Step(a, ServerStep);
    ss, acts := Go(ss, acts, s, b, ServerStep);
    t := Step(b, ServerStep);
    if b.inflight != 0 {
      ss, acts := Go(ss, acts, s, t, ServerStep);
      t := Step(t, ServerStep);
    }
  }

  /** Slots below `n` the drain still has something to do with. */
  function Due(slots: seq<Slot>, busy: Option<nat>, n: nat): nat
    requires n <= |slots|
  {
    if n == 0 then 0 else Due(slots, busy, n - 1) + if slots[n - 1].state == Pending && busy != Some(n - 1) then 1 else 0
  }

  lemma {:induction false} DueFalls(s: Sys, t: Sys, j: nat, n: nat)
    requires n <= |s.slots| == |t.slots| && j < |s.slots|
    requires s.slots[j].state == Pending && s.v.busy != Some(j) && (t.slots[j].state != Pending || t.v.busy == Some(j))
    requires t.slots == s.slots[j := t.slots[j]] && (t.v.busy == s.v.busy || (s.v.busy == None && t.v.busy == Some(j)))
    ensures Due(t.slots, t.v.busy, n) + (if j < n then 1 else 0) <= Due(s.slots, s.v.busy, n)
  {
    if n > 0 { DueFalls(s, t, j, n - 1); }
  }

  /** The drain acts on another slot and comes back to the start. */
  lemma ActRun(s: Sys, j: nat, i: nat) returns (ss: seq<Sys>, acts: seq<Action>, t: Sys)
    requires s.v.mode.Up? && s.v.pc == Look(j) && j < |s.slots| && i < |s.slots| && j != i && Step(s, ServerStep).v.pc.Act?
    ensures Path(ss, acts, s, t) && ByServer(acts) && Spares(s, t, i) && t.v.pc.Idle?
    ensures |t.slots| == |s.slots| && t.slots == s.slots[j := t.slots[j]] && (Passed(s.slots[j], s.v.asvt) ==> t.v.busy == s.v.busy && Passed(t.slots[j], t.v.asvt))
    ensures s.v.busy.Some? ==> t.v.busy == s.v.busy
    ensures Due(t.slots, t.v.busy, i) + (if j < i then 1 else 0) <= Due(s.slots, s.v.busy, i)
  {
    ss, acts := [s], [];
    ss, acts := Go(ss, acts, s, s, ServerStep);
    var a := Step(s, ServerStep);
    ss, acts := Go(ss, acts, s, a, ServerStep);
    t := Step(a, ServerStep);
    if t.v.pc.Clear? {
      var tt, more, u := ReapRun(t, j);
      ss, acts := Join(ss, acts, tt, more, s, t, u);
      t := u;
    }
    DueFalls(s, t, j, i);
  }

  /** Left to itself, the drain comes to look at every published slot that is not in service; with nothing
      to dispatch on the way, it takes nothing into service. */
  lemma {:induction false} DrainReaches(s: Sys, i: nat) returns (ss: seq<Sys>, acts: seq<Action>, t: Sys)
    requires s.v.mode.Up? && i < |s.slots| && s.slots[i].state == Pending && s.v.busy != Some(i)
    requires s.v.pc.Idle? || (s.v.pc.Look? && s.v.pc.k <= i)
    ensures Path(ss, acts, s, t) && ByServer(acts) && Spares(s, t, i) && t.v.pc == Look(i) && t.v.busy != Some(i)
    ensures PassedBelow(s, i) || s.v.busy.Some? ==> t.v.busy == s.v.busy
    ensures Due(t.slots, t.v.busy, i) <= Due(s.slots, s.v.busy, i) - if t.v.busy == s.v.busy then 0 else 1
    decreases Due(s.slots, s.v.busy, i), if s.v.pc.Look? then i - s.v.pc.k else i + 1
  {
    if s.v.pc == Look(i) {
      return [s], [], s;
    }
    var a := Step(s, ServerStep);
    ss, acts := [s], [];
    if a.v.pc.Act? {
      ss, acts, a := ActRun(s, s.v.pc.k, i);
    } else {
      ss, acts := Go(ss, acts, s, s, ServerStep);
    }
    var tt, more;
    tt, more, t := DrainReaches(a, i);
    ss, acts := Join(ss, acts, tt, more, s, a, t);
  }

  // ---- a damaged guard word -----------------------------------------------------------------------------------

  predicate ByClient(acts: seq<Action>, d: nat) { forall i :: 0 <= i < |acts| ==> acts[i] == ClientStep(d, []) }

  /** A client walks past the slots that are taken. */
  lemma {:induction false} WalkTo(s: Sys, d: nat, k: nat, i: nat) returns (ss: seq<Sys>, acts: seq<Action>)
    requires d < |s.clients| && s.clients[d].alive && s.clients[d].pc == Scan(k) && k <= i < |s.slots|
    requires forall j :: k <= j < i ==> s.slots[j].state != Free
    ensures Path(ss, acts, s, s.(clients := s.clients[d := s.clients[d].(pc := Scan(i))])) && ByClient(acts, d)
    decreases i - k
  {
    ss, acts := [s], [];
    if k == i {
      assert s.clients[d := s.clients[d].(pc := Scan(i))] == s.clients;
    } else {
      ss, acts := Go(ss, acts, s, s, ClientStep(d, []));
      var a := Step(s, ClientStep(d, []));
      assert a == s.(clients := s.clients[d := s.clients[d].(pc := Scan(k + 1))]);
      var tt, more := WalkTo(a, d, k + 1, i);
      assert a.clients[d := a.clients[d].(pc := Scan(i))] == s.clients[d := s.clients[d].(pc := Scan(i))];
      ss, acts := Join(ss, acts, tt, more, s, a, a.(clients := a.clients[d := a.clients[d].(pc := Scan(i))]));
    }
  }

  /** A client enters and comes to the first slot that is not taken below. */
  lemma EnterTo(s: Sys, d: nat, i: nat) returns (ss: seq<Sys>, acts: seq<Action>)
    requires d < |s.clients| && s.clients[d].alive && s.clients[d].pc.Out? && s.v.mode.Up? && i < |s.slots|
    requires forall j :: 0 <= j < i ==> s.slots[j].state != Free
    ensures Path(ss, acts, s, s.(clients := s.clients[d := s.clients[d].(pc := Scan(i))])) && ByClient(acts, d)
  {
    ss, acts := [s], [];
    ss, acts := Go(ss, acts, s, s, ClientStep(d, []));
    var a := Step(s, ClientStep(d, []));
    assert a == s.(clients := s.clients[d := s.clients[d].(pc := Scan(0))]);
    var tt, more := WalkTo(a, d, 0, i);
    assert a.clients[d := a.clients[d].(pc := Scan(i))] == s.clients[d := s.clients[d].(pc := Scan(i))];
    ss, acts := Join(ss, acts, tt, more, s, a, a.(clients := a.clients[d := a.clients[d].(pc := Scan(i))]));
  }

  /** The drain looks at a damaged slot a client it finds alive has published, and takes it. */
  lemma Reclaims(s: Sys, i: nat) returns (ss: seq<Sys>, acts: seq<Action>, t: Sys)
    requires s.v.mode.Up? && s.v.pc == Look(i) && JudgesDamage(s) && Ident(s.slots[i], s.v.asvt) == Live
    ensures Path(ss, acts, s, t) && ByServer(acts) && t.clients == s.clients && |t.slots| == |s.slots| && t.v.pc == Clear(i)
  {
    ss, acts := [s], [];
    ss, acts := Go(ss, acts, s, s, ServerStep);
    var a := Step(s, ServerStep);
    assert a.v.pc == Act(i, ReapBad);
    ss, acts := Go(ss, acts, s, a, ServerStep);
    t := Step(a, ServerStep);
  }

  /** The slot is freed, and a newcomer claims it. */
  lemma Reassigns(s: Sys, i: nat, d: nat) returns (ss: seq<Sys>, acts: seq<Action>, t: Sys)
    requires s.v.pc == Clear(i) && i < |s.slots| && d < |s.clients| && s.clients[d].alive && s.clients[d].pc == Scan(i)
    ensures Path(ss, acts, s, t) && t.clients == s.clients[d := s.clients[d].(pc := Took(i))]
    ensures Between(acts, d)
  {
    ss, acts := [s], [];
    ss, acts := Go(ss, acts, s, s, ServerStep);
    var b := Step(s, ServerStep);
    ss, acts := Go(ss, acts, s, b, ServerStep);
    var c := Step(b, ServerStep);
    ss, acts := Go(ss, acts, s, c, ClientStep(d, []));
    t := Step(c, ClientStep(d, []));
  }

  lemma KnownLive(s: Sys, i: nat, c: nat)
    requires Inv(s) && i < |s.slots| && s.slots[i].state == Pending && c < |s.clients| && Owns(s.clients[c], i)
    requires Checkable(s.clients[c].ascb, s.clients[c].asid, s.v.asvt)
    ensures Ident(s.slots[i], s.v.asvt) == Live
  {
    assert ClientOk(s, c);
  }

  /** Only the server and client `d` move. */
  predicate Between(acts: seq<Action>, d: nat) { forall i :: 0 <= i < |acts| ==> acts[i] == ServerStep || acts[i] == ClientStep(d, []) }

  lemma BetweenJoin(acts: seq<Action>, more: seq<Action>, d: nat)
    requires Between(acts, d) && Between(more, d)
    ensures Between(acts + more, d)
  {
  }

  /** The damage done, the newcomer walks up to the slot, and the drain comes to look at it. */
  lemma DamageSeen(a: Sys, i: nat, d: nat) returns (ss: seq<Sys>, acts: seq<Action>, t: Sys)
    requires a.v.mode.Up? && a.v.pc.Idle? && i < |a.slots| && a.slots[i].state == Pending && a.v.busy != Some(i)
    requires d < |a.clients| && a.clients[d].alive && a.clients[d].pc.Out?
    requires forall j :: 0 <= j < i ==> a.slots[j].state != Free
    ensures Path(ss, acts, a, t) && Between(acts, d) && t.clients == a.clients[d := a.clients[d].(pc := Scan(i))]
    ensures t.v.pc == Look(i) && t.v.mode.Up? && t.v.busy != Some(i) && t.v.asvt == a.v.asvt && t.v.ptr == a.v.ptr
    ensures |t.slots| == |a.slots| && t.slots[i] == a.slots[i]
  {
    var enter;
    ss, enter := EnterTo(a, d, i);
    var b := a.(clients := a.clients[d := a.clients[d].(pc := Scan(i))]);
    var tt, drain;
    tt, drain, t := DrainReaches(b, i);
    ss, acts := Join(ss, enter, tt, drain, a, b, t);
    BetweenJoin(enter, drain, d);
  }

  /** The slot taken from its owner and claimed by the newcomer. */
  lemma DamageReaped(e: Sys, i: nat, d: nat) returns (ss: seq<Sys>, acts: seq<Action>, t: Sys)
    requires e.v.mode.Up? && e.v.pc == Look(i) && JudgesDamage(e) && Ident(e.slots[i], e.v.asvt) == Live
    requires d < |e.clients| && e.clients[d].alive && e.clients[d].pc == Scan(i)
    ensures Path(ss, acts, e, t) && Between(acts, d) && t.clients == e.clients[d := e.clients[d].(pc := Took(i))]
  {
    var reclaim, f;
    ss, reclaim, f := Reclaims(e, i);
    var tt, reassign;
    tt, reassign, t := Reassigns(f, i, d);
    ss, acts := Join(ss, reclaim, tt, reassign, e, f, t);
    BetweenJoin(reclaim, reassign, d);
  }

  /** Whatever state the pool is in: overrun the guard word of a published slot whose owner is alive and can
      be checked, and there is a run, of the server and one newcomer only, to two living owners. */
  lemma DamageLoses(s: Sys, i: nat, c: nat, d: nat) returns (ss: seq<Sys>, acts: seq<Action>)
    requires Inv(s) && s.v.mode.Up? && s.v.pc.Idle? && i < |s.slots| && s.slots[i].state == Pending && s.v.busy != Some(i)
    requires c < |s.clients| && Owns(s.clients[c], i) && Checkable(s.clients[c].ascb, s.clients[c].asid, s.v.asvt)
    requires d < |s.clients| && d != c && s.clients[d].alive && s.clients[d].pc.Out?
    requires forall j :: 0 <= j < i ==> s.slots[j].state != Free
    ensures Run(ss, acts) && ss[0] == s && |acts| > 0 && acts[0] == Overrun(i)
    ensures Between(acts[1..], d)
    ensures var t := ss[|acts|]; |t.clients| == |s.clients| && Owns(t.clients[c], i) && Owns(t.clients[d], i)
  {
    KnownLive(s, i, c);
    var a := Step(s, Overrun(i));
    var tt, seen, e := DamageSeen(a, i, d);
    var uu, reaped, t := DamageReaped(e, i, d);
    var vv, all := Join(tt, seen, uu, reaped, a, e, t);
    BetweenJoin(seen, reaped, d);
    ss, acts := Join([s, a], [Overrun(i)], vv, all, s, a, t);
    assert acts[1..] == all;
  }

  // ---- taking over a pool that has not settled -------------------------------------------------------------

  /** A lower slot that a newcomer cannot take, now or after the scrub: in use, and not left published by a
      client whose address space has ended. */
  predicate Kept(sl: Slot, asvt: Asvt) {
    sl.state != Free && (Ident(sl, asvt) == Dead ==> sl.state == Claimed)
  }

  /** What the scrub makes of such a slot: still in use, and nothing for the drain to dispatch. */
  predicate Scrubbed(sl: Slot, asvt: Asvt) {
    sl.state != Free && Passed(sl, asvt)
  }

  /** The recorded address space has ended: the ASVT names another, or none. */
  predicate Lost(sl: Slot, asvt: Asvt) {
    sl.ascb != 0 && 0 < sl.asid <= |asvt| && (asvt[sl.asid - 1] != sl.ascb || asvt[sl.asid - 1] / 0x8000_0000 % 2 == 1)
  }

  /** No identity recorded, or no entry to judge it by. */
  predicate Unjudged(sl: Slot, asvt: Asvt) {
    sl.ascb == 0 || sl.asid == 0 || sl.asid > |asvt|
  }

  /** What the scrub makes of a slot: one an ended client has published is freed; the request of a living one, its
      storage intact, is held and its client posted; any other slot is left as it was. */
  predicate Scrubs(a: Slot, b: Slot, asvt: Asvt) {
    if Lost(a, asvt) && (a.state == Pending || a.state == Held || a.state == SlotState.Done) then b.state == Free && b.data == []
    else if !Lost(a, asvt) && !Unjudged(a, asvt) && a.guard && (a.state == Pending || a.state == Held) then b == a.(state := Held, ecb := true)
    else b == a
  }

  /** The scrub deals with one slot. */
  lemma ScrubOne(s: Sys) returns (ss: seq<Sys>, acts: seq<Action>, t: Sys)
    requires s.v.mode.Adopting? && s.v.pc.Scrub? && s.v.next < |s.slots| && s.v.ptr
    ensures Path(ss, acts, s, t) && ByServer(acts) && t.clients == s.clients && t.v == s.v.(next := s.v.next + 1)
    ensures |t.slots| == |s.slots| && t.slots == s.slots[s.v.next := t.slots[s.v.next]]
    ensures Kept(s.slots[s.v.next], s.v.asvt) ==> Scrubbed(t.slots[s.v.next], s.v.asvt)
    ensures Scrubs(s.slots[s.v.next], t.slots[s.v.next], s.v.asvt)
  {
    ss, acts := [s], [];
    ss, acts := Go(ss, acts, s, s, ServerStep);
    t := Step(s, ServerStep);
    if t.v.pc.Adopt? {
      var a := t;
      ss, acts := Go(ss, acts, s, a, ServerStep);
      t := Step(a, ServerStep);
      if t.v.pc.Clear? {
        var tt, more, u := ReapRun(t, s.v.next);
        ss, acts := Join(ss, acts, tt, more, s, t, u);
        t := u;
      } else if t.v.pc.Nudge? {
        ss, acts := Go(ss, acts, s, t, ServerStep);
        t := Step(t, ServerStep);
      }
    }
  }

  /** The scrub comes to slot `n`; what it makes of a slot depends on that slot alone. */
  lemma {:induction false} ScrubReaches(s: Sys, n: nat) returns (ss: seq<Sys>, acts: seq<Action>, t: Sys)
    requires s.v.mode.Adopting? && s.v.pc.Scrub? && s.v.next <= n <= |s.slots| && s.v.ptr
    ensures Path(ss, acts, s, t) && ByServer(acts) && t.clients == s.clients && t.v == s.v.(next := n) && |t.slots| == |s.slots|
    ensures forall j :: 0 <= j < |s.slots| && !(s.v.next <= j < n) ==> t.slots[j] == s.slots[j]
    ensures forall j :: s.v.next <= j < n && Kept(s.slots[j], s.v.asvt) ==> Scrubbed(t.slots[j], s.v.asvt)
    ensures forall j :: s.v.next <= j < n ==> Scrubs(s.slots[j], t.slots[j], s.v.asvt)
    decreases n - s.v.next
  {
    if s.v.next == n {
      return [s], [], s;
    }
    var a;
    ss, acts, a := ScrubOne(s);
    var tt, more;
    tt, more, t := ScrubReaches(a, n);
    ss, acts := Join(ss, acts, tt, more, s, a, t);
  }

  /** Holding the slot of a woken client, the scrub gives it time to leave before the POST. */
  lemma HeldThenLeft(s: Sys, a: nat, i: nat) returns (ss: seq<Sys>, acts: seq<Action>, t: Sys)
    requires s.v.mode.Adopting? && s.v.pc.Scrub? && s.v.next == i < |s.slots| && s.v.ptr && Ident(s.slots[i], s.v.asvt) == Live
    requires s.slots[i].state == Pending && s.slots[i].guard && s.slots[i].ecb
    requires a < |s.clients| && s.clients[a].alive && s.clients[a].pc == Waiting(i)
    ensures Path(ss, acts, s, t) && Works(acts) && t.clients == s.clients[a := s.clients[a].(pc := Back)]
    ensures t.v == s.v.(pc := Nudge(i)) && t.slots == s.slots[i := s.slots[i].(state := Free)]
  {
    ss, acts := [s], [];
    ss, acts := Go(ss, acts, s, s, ServerStep);
    var b := Step(s, ServerStep);
    assert b.v.pc == Adopt(i, Pending, AdoptPost);
    ss, acts := Go(ss, acts, s, b, ServerStep);
    var c := Step(b, ServerStep);
    ss, acts := Go(ss, acts, s, c, ClientStep(a, []));
    var d := Step(c, ClientStep(a, []));
    ss, acts := Go(ss, acts, s, d, ClientStep(a, []));
    t := Step(d, ClientStep(a, []));
  }

  /** A client claims a free slot, counts itself in and stages its request, its reply ECB cleared. */
  lemma StagesIn(s: Sys, b: nat, i: nat, request: Octets) returns (ss: seq<Sys>, acts: seq<Action>, t: Sys)
    requires i < |s.slots| && s.slots[i].state == Free && b < |s.clients| && s.clients[b].alive && s.clients[b].pc == Scan(i)
    ensures Path(ss, acts, s, t) && acts == [ClientStep(b, request), ClientStep(b, request), ClientStep(b, request), ClientStep(b, request)]
    ensures t.v == s.v && t.clients == s.clients[b := s.clients[b].(pc := Ready(i), sent := request)]
    ensures t.slots == s.slots[i := Slot(Claimed, s.clients[b].ascb, s.clients[b].asid, request, false, s.slots[i].guard)]
  {
    ss, acts := Go([s], [], s, s, ClientStep(b, request));
    var c := Step(s, ClientStep(b, request));
    ss, acts := Go(ss, acts, s, c, ClientStep(b, request));
    var d := Step(c, ClientStep(b, request));
    ss, acts := Go(ss, acts, s, d, ClientStep(b, request));
    var e := Step(d, ClientStep(b, request));
    ss, acts := Go(ss, acts, s, e, ClientStep(b, request));
    t := Step(e, ClientStep(b, request));
  }

  /** It is in before the POST, and gets it. */
  lemma WrongOnePosted(s: Sys, b: nat, i: nat) returns (ss: seq<Sys>, acts: seq<Action>, t: Sys)
    requires s.v.mode.Adopting? && s.v.pc == Nudge(i) && s.v.next == i < |s.slots|
    requires b < |s.clients| && s.clients[b].alive && s.clients[b].pc == Ready(i)
    ensures Path(ss, acts, s, t) && Works(acts) && t.clients == s.clients[b := s.clients[b].(pc := Posting(i))]
    ensures t.v == s.v.(pc := Scrub, next := i + 1) && t.slots == s.slots[i := s.slots[i].(state := Pending, ecb := true)]
  {
    ss, acts := [s], [];
    ss, acts := Go(ss, acts, s, s, ServerStep);
    var g := Step(s, ServerStep);
    ss, acts := Go(ss, acts, s, g, ClientStep(b, []));
    t := Step(g, ClientStep(b, []));
  }

  /** Begins with the re-stamp, and then only the server, the clients and the executive move. */
  predicate TakesOver(acts: seq<Action>) {
    |acts| > 0 && acts[0] == Restamp && Works(acts[1..])
  }

  /** A stopped pool in which client `a` has been woken at published slot `i`, and client `b` is about to test
      that slot. */
  ghost predicate Crowded(s: Sys, a: nat, b: nat, i: nat) {
    && Inv(s) && s.v.mode.Stopping? && i < |s.slots| && s.slots[i].state == Pending && s.slots[i].guard && s.slots[i].ecb
    && a < |s.clients| && s.clients[a].alive && s.clients[a].pc == Waiting(i) && Checkable(s.clients[a].ascb, s.clients[a].asid, s.v.asvt)
    && b < |s.clients| && s.clients[b].alive && s.clients[b].pc == Scan(i)
  }

  /** Client `b` posted at slot `i` behind the scrub, its request neither served nor held. */
  predicate Misposted(s: Sys, t: Sys, a: nat, b: nat, i: nat)
    requires a < |s.clients| && b < |s.clients| && i < |s.slots| == |t.slots|
  {
    && t.clients == s.clients[a := s.clients[a].(pc := Back)][b := s.clients[b].(pc := Posting(i), sent := [])]
    && t.v == Restamped(s.v).(next := i + 1)
    && t.slots[i] == Slot(Pending, s.clients[b].ascb, s.clients[b].asid, [], true, true)
  }

  /** The scrub comes to the slot, holds it, and its owner leaves. */
  lemma OneLeaves(s: Sys, a: nat, i: nat) returns (ss: seq<Sys>, acts: seq<Action>, t: Sys)
    requires s.v.mode.Adopting? && s.v.pc.Scrub? && s.v.next <= i < |s.slots| && s.v.ptr && Ident(s.slots[i], s.v.asvt) == Live
    requires s.slots[i].state == Pending && s.slots[i].guard && s.slots[i].ecb
    requires a < |s.clients| && s.clients[a].alive && s.clients[a].pc == Waiting(i)
    ensures Path(ss, acts, s, t) && Works(acts) && t.clients == s.clients[a := s.clients[a].(pc := Back)]
    ensures t.v == s.v.(pc := Nudge(i), next := i) && |t.slots| == |s.slots| && t.slots[i] == s.slots[i].(state := Free)
    ensures forall j :: s.v.next <= j < i && Kept(s.slots[j], s.v.asvt) ==> Scrubbed(t.slots[j], s.v.asvt)
  {
    var d, tt, more;
    ss, acts, d := ScrubReaches(s, i);
    tt, more, t := HeldThenLeft(d, a, i);
    ss, acts := Join(ss, acts, tt, more, s, d, t);
  }

  /** The other comes in to the slot, and gets the POST. */
  lemma OtherPosted(s: Sys, b: nat, i: nat) returns (ss: seq<Sys>, acts: seq<Action>, t: Sys)
    requires s.v.mode.Adopting? && s.v.pc == Nudge(i) && s.v.next == i < |s.slots| && s.slots[i].state == Free
    requires b < |s.clients| && s.clients[b].alive && s.clients[b].pc == Scan(i)
    ensures Path(ss, acts, s, t) && Works(acts) && t.clients == s.clients[b := s.clients[b].(pc := Posting(i), sent := [])]
    ensures t.v == s.v.(pc := Scrub, next := i + 1) && |t.slots| == |s.slots|
    ensures t.slots == s.slots[i := Slot(Pending, s.clients[b].ascb, s.clients[b].asid, [], true, s.slots[i].guard)]
  {
    var f, tt, more;
    ss, acts, f := StagesIn(s, b, i, []);
    tt, more, t := WrongOnePosted(f, b, i);
    ss, acts := Join(ss, acts, tt, more, s, f, t);
  }

  lemma Misposts(s: Sys, a: nat, b: nat, i: nat) returns (ss: seq<Sys>, acts: seq<Action>, t: Sys)
    requires Crowded(s, a, b, i)
    ensures Path(ss, acts, s, t) && TakesOver(acts) && |t.slots| == |s.slots| && Misposted(s, t, a, b, i)
    ensures forall j :: 0 <= j < i && Kept(s.slots[j], s.v.asvt) ==> Scrubbed(t.slots[j], s.v.asvt)
  {
    KnownLive(s, i, a);
    var c := Step(s, Restamp);
    var cc, first, e := OneLeaves(c, a, i);
    var ee, second;
    ee, second, t := OtherPosted(e, b, i);
    cc, first := Join(cc, first, ee, second, c, e, t);
    ss, acts := Join([s, c], [Restamp], cc, first, s, c, t);
    assert acts[1..] == first;
  }

  /** Whatever state a stopped pool is in: with a woken client waiting at a published slot and another about
      to test that slot, taking the pool over can post the newcomer. It has then been woken with its request
      neither served nor held, behind the scrub: it will leave, and the server will dispatch what it left. */
  lemma AdoptionMisposts(s: Sys, a: nat, b: nat, i: nat) returns (ss: seq<Sys>, acts: seq<Action>)
    requires Crowded(s, a, b, i)
    ensures Run(ss, acts) && ss[0] == s && TakesOver(acts)
    ensures var t := ss[|acts|];
      && |t.clients| == |s.clients| && |t.slots| == |s.slots| && Owns(t.clients[b], i) && t.clients[b].pc.Posting?
      && t.slots[i].state == Pending && Recorded(t.clients[b], t.slots[i]) && t.slots[i].ecb && WorkItem(t.v, i)
  {
    var t;
    ss, acts, t := Misposts(s, a, b, i);
  }

  // ---- ... and what comes of it -----------------------------------------------------------------------------

  /** The scrub done, a client from outside comes up to the slot, past the lower ones. */
  lemma ComesUp(s: Sys, c: nat, i: nat) returns (ss: seq<Sys>, acts: seq<Action>, t: Sys)
    requires s.v.mode.Adopting? && s.v.pc.Scrub? && s.v.next == i + 1 <= |s.slots| && s.v.ptr
    requires c < |s.clients| && s.clients[c].alive && s.clients[c].pc.Out?
    requires s.slots[i].state == Pending && forall j :: 0 <= j < i ==> s.slots[j].state != Free
    ensures Path(ss, acts, s, t) && Works(acts) && t.clients == s.clients[c := s.clients[c].(pc := Scan(i))]
    ensures t.v == s.v.(mode := Up, pc := Idle, next := |s.slots|) && |t.slots| == |s.slots|
    ensures forall j :: 0 <= j <= i ==> t.slots[j] == s.slots[j]
  {
    var a, tt, more;
    ss, acts, a := ScrubReaches(s, |s.slots|);
    ss, acts := Go(ss, acts, s, a, ServerStep);
    var b := Step(a, ServerStep);
    tt, more := EnterTo(b, c, i);
    t := b.(clients := b.clients[c := b.clients[c].(pc := Scan(i))]);
    ss, acts := Join(ss, acts, tt, more, s, b, t);
  }

  /** The drain takes the misposted request into service. */
  lemma Serves(s: Sys, i: nat) returns (ss: seq<Sys>, acts: seq<Action>, t: Sys)
    requires s.v.mode.Up? && s.v.pc.Idle? && s.v.busy.None? && s.v.ptr && i < |s.slots|
    requires s.slots[i].state == Pending && s.slots[i].guard && Ident(s.slots[i], s.v.asvt) == Live && PassedBelow(s, i)
    ensures Path(ss, acts, s, t) && Works(acts) && t.clients == s.clients && |t.slots| == |s.slots| && t.slots[i] == s.slots[i]
    ensures t.v.mode.Up? && t.v.pc.Idle? && t.v.busy == Some(i) && t.v.asvt == s.v.asvt
  {
    var a;
    ss, acts, a := DrainReaches(s, i);
    ss, acts := Go(ss, acts, s, a, ServerStep);
    var b := Step(a, ServerStep);
    assert b.v.pc == Act(i, Dispatch);
    ss, acts := Go(ss, acts, s, b, ServerStep);
    t := Step(b, ServerStep);
  }

  /** A client woken undone leaves. */
  lemma LeavesUndone(s: Sys, b: nat, i: nat) returns (ss: seq<Sys>, acts: seq<Action>, t: Sys)
    requires i < |s.slots| && s.slots[i].state == Pending && s.slots[i].ecb
    requires b < |s.clients| && s.clients[b].alive && s.clients[b].pc == Posting(i)
    ensures Path(ss, acts, s, t) && Works(acts) && t.v == s.v && t.slots == s.slots[i := s.slots[i].(state := Free)]
    ensures t.clients == s.clients[b := s.clients[b].(pc := Back)]
  {
    ss, acts := [s], [];
    ss, acts := Go(ss, acts, s, s, ClientStep(b, []));
    var d := Step(s, ClientStep(b, []));
    ss, acts := Go(ss, acts, s, d, ClientStep(b, []));
    var e := Step(d, ClientStep(b, []));
    ss, acts := Go(ss, acts, s, e, ClientStep(b, []));
    t := Step(e, ClientStep(b, []));
  }

  /** Its owner, woken undone, leaves, and the client that was waiting for the slot takes it. */
  lemma ChangesHands(s: Sys, b: nat, c: nat, i: nat) returns (ss: seq<Sys>, acts: seq<Action>, t: Sys)
    requires i < |s.slots| && s.slots[i].state == Pending && s.slots[i].ecb && b != c
    requires b < |s.clients| && s.clients[b].alive && s.clients[b].pc == Posting(i)
    requires c < |s.clients| && s.clients[c].alive && s.clients[c].pc == Scan(i)
    ensures Path(ss, acts, s, t) && Works(acts) && t.v == s.v && t.slots == s.slots[i := s.slots[i].(state := Claimed)]
    ensures t.clients == s.clients[b := s.clients[b].(pc := Back)][c := s.clients[c].(pc := Took(i))]
  {
    var f;
    ss, acts, f := LeavesUndone(s, b, i);
    ss, acts := Go(ss, acts, s, f, ClientStep(c, []));
    t := Step(f, ClientStep(c, []));
  }

  /** The request done, its result and DONE go where it was. */
  lemma StoresDone(s: Sys, i: nat) returns (ss: seq<Sys>, acts: seq<Action>, t: Sys)
    requires s.v.mode.Up? && s.v.pc.Idle? && s.v.busy == Some(i) && i < |s.slots| && Ident(s.slots[i], s.v.asvt) == Live
    ensures Path(ss, acts, s, t) && Works(acts) && |acts| == 2 && |ss[1].slots| == |t.slots| == |s.slots|
    ensures ss[1].clients == t.clients == s.clients && ss[1].slots[i].state == s.slots[i].state && t.slots[i].state == SlotState.Done
  {
    ss, acts := [s], [];
    ss, acts := Go(ss, acts, s, s, Completes([]));
    var a := Step(s, Completes([]));
    ss, acts := Go(ss, acts, s, a, ServerStep);
    t := Step(a, ServerStep);
  }

  /** From the mispost on: a client from outside takes the slot over just before DONE is stored into it. */
  lemma MispostStores(s: Sys, b: nat, c: nat, i: nat) returns (ss: seq<Sys>, acts: seq<Action>)
    requires s.v.mode.Adopting? && s.v.pc.Scrub? && s.v.next == i + 1 <= |s.slots| && s.v.ptr && s.v.busy.None?
    requires s.slots[i].state == Pending && s.slots[i].guard && s.slots[i].ecb && Ident(s.slots[i], s.v.asvt) == Live
    requires forall j :: 0 <= j < i ==> Scrubbed(s.slots[j], s.v.asvt)
    requires b < |s.clients| && s.clients[b].alive && s.clients[b].pc == Posting(i)
    requires c < |s.clients| && s.clients[c].alive && s.clients[c].pc.Out?
    ensures Run(ss, acts) && ss[0] == s && Works(acts) && |acts| > 1 && StoredUnder(ss[|acts| - 1], ss[|acts|], c, i)
  {
    var d, tt, more, e, f, g;
    ss, acts, d := ComesUp(s, c, i);
    tt, more, e := Serves(d, i);
    ss, acts := Join(ss, acts, tt, more, s, d, e);
    tt, more, f := ChangesHands(e, b, c, i);
    ss, acts := Join(ss, acts, tt, more, s, e, f);
    tt, more, g := StoresDone(f, i);
    ss, acts := JoinLast(ss, acts, tt, more, s, f, g);
  }

  /** A step that stores DONE into a slot its living owner, `c`, has claimed. */
  predicate StoredUnder(s: Sys, t: Sys, c: nat, i: nat) {
    && c < |s.clients| && i < |s.slots| == |t.slots| && Owns(s.clients[c], i)
    && s.slots[i].state == Claimed && t.slots[i].state == SlotState.Done
  }

  /** ... and so from where the run to the mispost has left the pool. */
  lemma StoresFrom(s: Sys, t: Sys, a: nat, b: nat, c: nat, i: nat) returns (ss: seq<Sys>, acts: seq<Action>)
    requires Crowded(s, a, b, i) && Checkable(s.clients[b].ascb, s.clients[b].asid, s.v.asvt) && |t.slots| == |s.slots| && Misposted(s, t, a, b, i)
    requires c < |s.clients| && s.clients[c].alive && s.clients[c].pc.Out?
    requires forall j :: 0 <= j < i ==> Scrubbed(t.slots[j], s.v.asvt)
    ensures Run(ss, acts) && ss[0] == t && Works(acts) && |acts| > 1 && StoredUnder(ss[|acts| - 1], ss[|acts|], c, i)
  {
    assert ClientOk(s, b);
    ss, acts := MispostStores(t, b, c, i);
  }

  /** From any such stopped pool, with a third client outside and every lower slot in use and staying so: a run
      on which every guard is intact stores DONE into a slot that its living owner is staging into, which is no
      allowed transition. */
  lemma AdoptionStores(s: Sys, a: nat, b: nat, c: nat, i: nat) returns (ss: seq<Sys>, acts: seq<Action>)
    requires Crowded(s, a, b, i) && Checkable(s.clients[b].ascb, s.clients[b].asid, s.v.asvt)
    requires c < |s.clients| && s.clients[c].alive && s.clients[c].pc.Out?
    requires forall j :: 0 <= j < i ==> Kept(s.slots[j], s.v.asvt)
    ensures Run(ss, acts) && ss[0] == s && TakesOver(acts) && |acts| > 1 && StoredUnder(ss[|acts| - 1], ss[|acts|], c, i)
    ensures var (x, t) := (ss[|acts| - 1], ss[|acts|]); !SlotLegal(x.slots[i].state, t.slots[i].state)
  {
    var t;
    ss, acts, t := Misposts(s, a, b, i);
    var tt, more := StoresFrom(s, t, a, b, c, i);
    assert (acts + more)[1..] == acts[1..] + more;
    ss, acts := JoinLast(ss, acts, tt, more, s, t, tt[|more|]);
  }

  // ---- runs from a fresh pool -----------------------------------------------------------------------------------

  function Party(ascb: nat, pc: Pc): Client { Client(true, ascb, ascb, pc, [], []) }

  function At(mode: Mode, pc: ServerPc, next: nat, busy: Option<nat>): Server {
    Server(mode, pc, next, busy, [], !mode.Stopping?, [1, 2, 3], {})
  }

  /** One slot, three clients. */
  function Trio(sl: Slot, a: Pc, b: Pc, c: Pc, v: Server, inflight: nat): Sys {
    Sys([sl], [Party(1, a), Party(2, b), Party(3, c)], v, inflight)
  }

  function Held1(state: SlotState, who: nat, ecb: bool): Slot { Slot(state, who, who, [], ecb, true) }

  /** The next state of a run, spelled out. */
  lemma To(ss: seq<Sys>, acts: seq<Action>, s: Sys, t: Sys, a: Action, u: Sys) returns (tt: seq<Sys>, more: seq<Action>)
    requires Path(ss, acts, s, t) && Enabled(t, a) && u == Step(t, a)
    ensures Path(tt, more, s, u) && more == acts + [a] && tt == ss + [u]
  {
    tt, more := ss + [u], acts + [a];
  }

  const OPEN: Server := At(Up, Idle, 0, None)
  const BEGIN: Sys := Trio(Held1(Free, 0, false), Out, Out, Out, OPEN, 0)

  lemma FirstIn() returns (ss: seq<Sys>, acts: seq<Action>)
    ensures Path(ss, acts, BEGIN, Trio(Held1(Claimed, 1, false), Counted(0), Out, Out, OPEN, 1)) && ByClient(acts, 0)
  {
    ss, acts := [BEGIN], [];
    ss, acts := To(ss, acts, BEGIN, BEGIN, ClientStep(0, []), Trio(Held1(Free, 0, false), Scan(0), Out, Out, OPEN, 0));
    ss, acts := To(ss, acts, BEGIN, ss[|acts|], ClientStep(0, []), Trio(Held1(Claimed, 0, false), Took(0), Out, Out, OPEN, 0));
    ss, acts := To(ss, acts, BEGIN, ss[|acts|], ClientStep(0, []), Trio(Held1(Claimed, 1, false), Pc.Named(0), Out, Out, OPEN, 0));
    ss, acts := To(ss, acts, BEGIN, ss[|acts|], ClientStep(0, []), Trio(Held1(Claimed, 1, false), Counted(0), Out, Out, OPEN, 1));
  }

  lemma FirstWaits() returns (ss: seq<Sys>, acts: seq<Action>)
    ensures Path(ss, acts, BEGIN, Trio(Held1(Pending, 1, false), Waiting(0), Out, Out, OPEN, 1)) && ByClient(acts, 0)
  {
    ss, acts := FirstIn();
    ss, acts := To(ss, acts, BEGIN, ss[|acts|], ClientStep(0, []), Trio(Held1(Claimed, 1, false), Ready(0), Out, Out, OPEN, 1));
    ss, acts := To(ss, acts, BEGIN, ss[|acts|], ClientStep(0, []), Trio(Held1(Pending, 1, false), Posting(0), Out, Out, OPEN, 1));
    ss, acts := To(ss, acts, BEGIN, ss[|acts|], ClientStep(0, []), Trio(Held1(Pending, 1, false), Waiting(0), Out, Out, OPEN, 1));
  }

  /** Stopped with the first client woken and still inside; the second outside, or past the ACTIVE test. */
  function Left(b: Pc): Sys { Trio(Held1(Pending, 1, true), Waiting(0), b, Out, At(Stopping, Idle, 0, None), 1) }

  predicate NoTakeOver(acts: seq<Action>) { forall i :: 0 <= i < |acts| ==> !acts[i].ServerStep? && !acts[i].Restamp? }

  lemma StopsWithOne(second: bool) returns (ss: seq<Sys>, acts: seq<Action>)
    ensures Path(ss, acts, BEGIN, Left(if second then Scan(0) else Out)) && NoTakeOver(acts)
  {
    var b := if second then Scan(0) else Out;
    ss, acts := FirstWaits();
    if second {
      ss, acts := To(ss, acts, BEGIN, ss[|acts|], ClientStep(1, []), Trio(Held1(Pending, 1, false), Waiting(0), b, Out, OPEN, 1));
    }
    ss, acts := To(ss, acts, BEGIN, ss[|acts|], Stop, Trio(Held1(Pending, 1, false), Waiting(0), b, Out, At(Stopping, Idle, 0, None), 1));
    ss, acts := To(ss, acts, BEGIN, ss[|acts|], Wake(0), Left(b));
  }

  lemma PlainIsSound(ss: seq<Sys>, acts: seq<Action>)
    requires Run(ss, acts) && Fresh(ss[0]) && NoTakeOver(acts)
    ensures SoundRun(ss, acts)
  {
  }

  /** Nothing the adopting server can read tells it whether it may: two stopped pools, each come to by a
      sound run, show it the same slots, the same count and the same anchor. The one has settled, so every
      run on from it is sound; from the other, with every guard intact, a run leads to a slot transition that
      is not allowed, under a living owner. */
  lemma NoTestTells() returns (ss: seq<Sys>, acts: seq<Action>, tt: seq<Sys>, more: seq<Action>, us: seq<Sys>, tail: seq<Action>)
    ensures SoundRun(ss, acts) && SoundRun(tt, more)
    ensures var (s, t) := (ss[|acts|], tt[|more|]); s.slots == t.slots && s.v == t.v && s.inflight == t.inflight && Enabled(s, Restamp)
    ensures Settled(ss[|acts|])
    ensures Run(us, tail) && us[0] == tt[|more|] && TakesOver(tail) && |tail| > 1
    ensures StoredUnder(us[|tail| - 1], us[|tail|], 2, 0)
  {
    ss, acts := StopsWithOne(false);
    tt, more := StopsWithOne(true);
    PlainIsSound(ss, acts);
    PlainIsSound(tt, more);
    RunKeeps(tt, more, |more|);
    us, tail := AdoptionStores(Left(Scan(0)), 0, 1, 2, 0);
  }

  // ---- a lost update ----------------------------------------------------------------------------------------------

  const ENDED: Client := Client(false, 1, 1, Posting(0), [], [])

  /** The first client's address space has ended behind a published request. */
  function Ended(sl: Slot, b: Pc, pc: ServerPc, inflight: nat): Sys {
    Sys([sl], [ENDED, Party(2, b), Party(3, Out)], OPEN.(pc := pc, asvt := [ASVT_AVAIL, 2, 3]), inflight)
  }

  const FREED: Slot := Slot(Free, 0, 0, [], false, true)

  lemma FirstPublishes() returns (ss: seq<Sys>, acts: seq<Action>)
    ensures Path(ss, acts, BEGIN, Trio(Held1(Pending, 1, false), Posting(0), Out, Out, OPEN, 1))
    ensures forall i :: 0 <= i < |acts| ==> !acts[i].ServerStep? && !acts[i].Overrun? && !acts[i].Restamp?
  {
    ss, acts := FirstIn();
    ss, acts := To(ss, acts, BEGIN, ss[|acts|], ClientStep(0, []), Trio(Held1(Claimed, 1, false), Ready(0), Out, Out, OPEN, 1));
    ss, acts := To(ss, acts, BEGIN, ss[|acts|], ClientStep(0, []), Trio(Held1(Pending, 1, false), Posting(0), Out, Out, OPEN, 1));
  }

  lemma FirstEnds() returns (ss: seq<Sys>, acts: seq<Action>)
    ensures Path(ss, acts, BEGIN, Ended(Held1(Pending, 1, false), Out, Idle, 1))
    ensures forall i :: 0 <= i < |acts| ==> !acts[i].ServerStep? && !acts[i].Overrun? && !acts[i].Restamp?
  {
    ss, acts := FirstPublishes();
    ss, acts := To(ss, acts, BEGIN, ss[|acts|], Dies(0), Sys([Held1(Pending, 1, false)], [ENDED, Party(2, Out), Party(3, Out)], OPEN, 1));
    ss, acts := To(ss, acts, BEGIN, ss[|acts|], AsvtMoves(0, ASVT_AVAIL), Ended(Held1(Pending, 1, false), Out, Idle, 1));
  }

  lemma Clears() returns (ss: seq<Sys>, acts: seq<Action>)
    ensures Path(ss, acts, BEGIN, Ended(Held1(Claimed, 1, false), Out, Clear(0), 1))
    ensures forall i :: 0 <= i < |acts| ==> !acts[i].Overrun? && !acts[i].Restamp?
  {
    ss, acts := FirstEnds();
    ss, acts := To(ss, acts, BEGIN, ss[|acts|], ServerStep, Ended(Held1(Pending, 1, false), Out, Look(0), 1));
    ss, acts := To(ss, acts, BEGIN, ss[|acts|], ServerStep, Ended(Held1(Pending, 1, false), Out, Act(0, Reap), 1));
    ss, acts := To(ss, acts, BEGIN, ss[|acts|], ServerStep, Ended(Held1(Claimed, 1, false), Out, Clear(0), 1));
  }

  lemma LoadsCount() returns (ss: seq<Sys>, acts: seq<Action>)
    ensures Path(ss, acts, BEGIN, Ended(FREED, Out, Debit(1), 1))
    ensures forall i :: 0 <= i < |acts| ==> !acts[i].Overrun? && !acts[i].Restamp?
  {
    ss, acts := Clears();
    ss, acts := To(ss, acts, BEGIN, ss[|acts|], ServerStep, Ended(Slot(Claimed, 0, 0, [], false, true), Out, Release(0), 1));
    ss, acts := To(ss, acts, BEGIN, ss[|acts|], ServerStep, Ended(FREED, Out, Tally, 1));
    ss, acts := To(ss, acts, BEGIN, ss[|acts|], ServerStep, Ended(FREED, Out, Debit(1), 1));
  }

  lemma SecondEnters() returns (ss: seq<Sys>, acts: seq<Action>)
    ensures Path(ss, acts, BEGIN, Ended(Held1(Claimed, 2, false), Pc.Named(0), Debit(1), 1))
    ensures forall i :: 0 <= i < |acts| ==> !acts[i].Overrun? && !acts[i].Restamp?
  {
    ss, acts := LoadsCount();
    ss, acts := To(ss, acts, BEGIN, ss[|acts|], ClientStep(1, []), Ended(FREED, Scan(0), Debit(1), 1));
    ss, acts := To(ss, acts, BEGIN, ss[|acts|], ClientStep(1, []), Ended(FREED.(state := Claimed), Took(0), Debit(1), 1));
    ss, acts := To(ss, acts, BEGIN, ss[|acts|], ClientStep(1, []), Ended(Held1(Claimed, 2, false), Pc.Named(0), Debit(1), 1));
  }

  /** The server's decrement of the count is a load and a store: a client that counts itself in between them
      is lost, and the count reads zero with that client inside. */
  lemma CountLost() returns (ss: seq<Sys>, acts: seq<Action>)
    ensures Run(ss, acts) && Fresh(ss[0]) && forall i :: 0 <= i < |acts| ==> !acts[i].Overrun? && !acts[i].Restamp?
    ensures var s := ss[|acts|]; s.inflight == 0 && |s.clients| == 3 && s.clients[1].alive && Inside(s.clients[1].pc)
  {
    ss, acts := SecondEnters();
    ss, acts := To(ss, acts, BEGIN, ss[|acts|], ClientStep(1, []), Ended(Held1(Claimed, 2, false), Counted(0), Debit(1), 2));
    ss, acts := To(ss, acts, BEGIN, ss[|acts|], ServerStep, Ended(Held1(Claimed, 2, false), Counted(0), Idle, 0));
  }
}
