/** What the slot pool promises, over every run: through any number of stops and adoptions, with any
    client dying anywhere, and with guard words overrun. */
module SlotTheorems {
  import opened Options
  import opened Bytes
  import opened SlotRules
  import opened SlotPool
  import opened SlotSafety
  import opened SlotCount

  // ---- runs --------------------------------------------------------------------------------------------------

  ghost predicate Run(ss: seq<Sys>, acts: seq<Action>) {
    && |ss| == |acts| + 1
    && forall i :: 0 <= i < |acts| ==> Enabled(ss[i], acts[i]) && ss[i + 1] == Step(ss[i], acts[i])
  }

  /** Up to step `n` the server's decrements of the in-flight count lose no update. */
  ghost predicate Exact(ss: seq<Sys>, acts: seq<Action>, n: nat)
    requires |acts| < |ss| && n <= |acts|
  {
    forall i :: 0 <= i < n ==> Lossless(ss[i], acts[i])
  }

  /** What step `i` must be: a damaged slot is judged only where no client it could find alive waits, and
      a pool is taken over only with its count at zero (and exact) or when it has settled. */
  ghost predicate Safe(ss: seq<Sys>, acts: seq<Action>, i: nat)
    requires |acts| < |ss| && i < |acts|
  {
    && (acts[i].ServerStep? ==> Harmless(ss[i]))
    && (acts[i].Restamp? ==> (ss[i].inflight == 0 && Exact(ss, acts, i)) || Settled(ss[i]))
  }

  ghost predicate SoundRun(ss: seq<Sys>, acts: seq<Action>) {
    Run(ss, acts) && Fresh(ss[0]) && forall i :: 0 <= i < |acts| ==> Safe(ss, acts, i)
  }

  lemma {:induction false} RunKeeps(ss: seq<Sys>, acts: seq<Action>, n: nat)
    requires SoundRun(ss, acts) && n <= |acts|
    ensures Inv(ss[n]) && (Exact(ss, acts, n) ==> Covers(ss[n]))
  {
    if n == 0 {
      FreshInv(ss[0]);
      FreshCovers(ss[0]);
    } else {
      RunKeeps(ss, acts, n - 1);
      var s, a := ss[n - 1], acts[n - 1];
      assert Safe(ss, acts, n - 1);
      if a.Restamp? && !Settled(s) { ZeroMeansNobody(s); }
      StepKeeps(s, a);
      if Exact(ss, acts, n) {
        assert Lossless(s, a);
        CountKept(s, a);
      }
    }
  }

  // ---- exclusion ----------------------------------------------------------------------------------------------

  /** The parties that may write a slot: living clients inside the routine at it, and the server
      between its compare-and-swap and its release. */
  ghost predicate Exclusive(s: Sys, i: nat) {
    && (forall c, d :: 0 <= c < |s.clients| && 0 <= d < |s.clients| && Owns(s.clients[c], i) && Owns(s.clients[d], i) ==> c == d)
    && (Reaping(s.v.pc, i) ==> Unowned(s.clients, i))
    && (i < |s.slots| && s.slots[i].state == Free ==> Unowned(s.clients, i) && !Reaping(s.v.pc, i))
  }

  /** No slot ever has two owners. */
  lemma SlotsExclusive(ss: seq<Sys>, acts: seq<Action>, n: nat, i: nat)
    requires SoundRun(ss, acts) && n <= |acts| && i < |ss[n].slots|
    ensures Exclusive(ss[n], i)
  {
    RunKeeps(ss, acts, n);
    var s := ss[n];
    if s.slots[i].state == Free { FreeUnowned(s, i); }
  }

  lemma ClientLegal(s: Sys, c: nat, request: Octets, i: nat)
    requires Inv(s) && ClientEnabled(s, c) && i < |s.slots|
    ensures var t := Step(s, ClientStep(c, request)); t.slots[i].state == s.slots[i].state || SlotLegal(s.slots[i].state, t.slots[i].state)
  {
    assert ClientOk(s, c);
  }

  lemma ServerLegal(s: Sys, i: nat)
    requires Inv(s) && ServerEnabled(s) && i < |s.slots|
    ensures var t := Step(s, ServerStep); t.slots[i].state == s.slots[i].state || SlotLegal(s.slots[i].state, t.slots[i].state)
  {
  }

  /** Every step moves every slot along the allowed transitions only. */
  lemma StepsLegal(ss: seq<Sys>, acts: seq<Action>, n: nat, i: nat)
    requires SoundRun(ss, acts) && n < |acts| && i < |ss[n].slots|
    ensures i < |ss[n + 1].slots|
    ensures var (was, now) := (ss[n].slots[i].state, ss[n + 1].slots[i].state); now == was || SlotLegal(was, now)
  {
    RunKeeps(ss, acts, n);
    match acts[n] {
      case ClientStep(c, request) => ClientLegal(ss[n], c, request, i);
      case ServerStep => ServerLegal(ss[n], i);
      case _ =>
    }
  }

  lemma TakenByReaper(s: Sys, a: Action, i: nat)
    requires Inv(s) && Enabled(s, a) && i < |s.slots|
    requires s.slots[i].state != Free && s.slots[i].state != Claimed && Step(s, a).slots[i].state == Claimed
    ensures a == ServerStep && Unowned(s.clients, i)
  {
  }

  /** A published slot is only ever taken over by the reaper, and never from a living client: whose
      address space the ASVT still names. */
  lemma LiveNeverReaped(ss: seq<Sys>, acts: seq<Action>, n: nat, i: nat)
    requires SoundRun(ss, acts) && n < |acts| && i < |ss[n].slots| && i < |ss[n + 1].slots|
    requires ss[n].slots[i].state != Free && ss[n].slots[i].state != Claimed && ss[n + 1].slots[i].state == Claimed
    ensures acts[n] == ServerStep && Unowned(ss[n].clients, i)
  {
    RunKeeps(ss, acts, n);
    TakenByReaper(ss[n], acts[n], i);
  }

  /** What the server dispatches is what the slot's recorded, living owner staged, and that owner is
      parked, unposted, until the request completes. */
  lemma DispatchIsStaged(ss: seq<Sys>, acts: seq<Action>, n: nat, c: nat)
    requires SoundRun(ss, acts) && n < |acts| && acts[n] == ServerStep
    requires ss[n].v.pc.Act? && ss[n].v.pc.act == Dispatch && c < |ss[n].clients| && Owns(ss[n].clients[c], ss[n].v.pc.i)
    ensures var (s, t) := (ss[n], ss[n + 1]);
      t.v.busy.Some? && (s.v.busy.None? ==> t.v.busy == Some(s.v.pc.i) && t.v.land == s.clients[c].sent)
    ensures Recorded(ss[n].clients[c], ss[n].slots[ss[n].v.pc.i]) && !ss[n].slots[ss[n].v.pc.i].ecb
    ensures ss[n].clients[c].pc.Posting? || ss[n].clients[c].pc.Waiting?
  {
    RunKeeps(ss, acts, n);
    assert ClientOk(ss[n], c);
  }

  lemma InService(s: Sys, a: Action)
    requires Inv(s) && Enabled(s, a) && s.v.busy.Some? && !a.Stop?
    requires !s.v.pc.Finish? && !s.v.pc.Reply? && !a.Completes?
    ensures var (i, t) := (s.v.busy.value, Step(s, a));
      t.slots[i] == s.slots[i].(ecb := t.slots[i].ecb, guard := t.slots[i].guard) && t.slots[i].state == Pending && t.v.busy == s.v.busy
  {
    match a {
      case ClientStep(c, request) => assert ClientOk(s, c);
      case _ =>
    }
  }

  /** The slot in service is never reaped, held or handed on under the executive: only the finish of
      that very request moves it. */
  lemma InServiceUntouched(ss: seq<Sys>, acts: seq<Action>, n: nat)
    requires SoundRun(ss, acts) && n < |acts| && ss[n].v.busy.Some? && !acts[n].Stop? && !acts[n].Completes?
    requires !ss[n].v.pc.Finish? && !ss[n].v.pc.Reply?
    ensures var (i, t) := (ss[n].v.busy.value, ss[n + 1]);
      && i < |ss[n].slots| && i < |t.slots| && t.v.busy == ss[n].v.busy
      && t.slots[i].state == Pending && t.slots[i] == ss[n].slots[i].(ecb := t.slots[i].ecb, guard := t.slots[i].guard)
  {
    RunKeeps(ss, acts, n);
    InService(ss[n], acts[n]);
  }

  /** A client reads out the result of a request of its own: the one it staged. */
  lemma ReplyIsOwn(ss: seq<Sys>, acts: seq<Action>, n: nat, c: nat, request: Octets)
    requires SoundRun(ss, acts) && n < |acts| && acts[n] == ClientStep(c, request)
    requires c < |ss[n].clients| && ss[n].clients[c].pc.Leave?
    ensures c < |ss[n + 1].clients|
    ensures var me := ss[n + 1].clients[c]; me.pc.Back? && (me.sent, me.got) in ss[n].v.served
  {
    RunKeeps(ss, acts, n);
    assert ClientOk(ss[n], c);
  }

  /** As long as no decrement has lost an update, a count of zero means that no living client is inside. */
  lemma ZeroIsQuiet(ss: seq<Sys>, acts: seq<Action>, n: nat, c: nat)
    requires SoundRun(ss, acts) && n <= |acts| && Exact(ss, acts, n) && ss[n].inflight == 0
    requires c < |ss[n].clients| && ss[n].clients[c].alive
    ensures !Inside(ss[n].clients[c].pc)
  {
    RunKeeps(ss, acts, n);
    ZeroMeansNobody(ss[n]);
  }
}
