/** What the socket layer promises, over every run. */
module SocketTheorems {
  import opened Options
  import opened Sockets
  import opened SocketSafety

  ghost predicate Run(ss: seq<Stack>, acts: seq<Action>) {
    && |ss| == |acts| + 1
    && forall i :: 0 <= i < |acts| ==> Enabled(ss[i], acts[i]) && ss[i + 1] == Step(ss[i], acts[i])
  }

  lemma InitInv(st: Stack)
    requires Initial(st)
    ensures Inv(st, None)
  {
    forall rid ensures Found(st, rid) {}
  }

  lemma {:induction false} RunInv(ss: seq<Stack>, acts: seq<Action>, n: nat)
    requires Run(ss, acts) && Initial(ss[0]) && n <= |acts|
    ensures Inv(ss[n], None)
  {
    if n == 0 {
      InitInv(ss[0]);
    } else {
      RunInv(ss, acts, n - 1);
      StepKeeps(ss[n - 1], acts[n - 1]);
    }
  }

  // ---- exactly once -----------------------------------------------------------------------------------

  predicate InQueue(st: Stack, rid: Rid) { exists m :: 0 <= m < |st.queue| && st.queue[m].rid == rid }
  predicate Selecting(st: Stack, n: nat, rid: Rid) { n < |st.sels| && st.sels[n].Some? && st.sels[n].value.rid == rid }
  predicate Completed(st: Stack, n: nat, rid: Rid) { n < |st.log| && st.log[n].rid == rid }

  /** Between dispatches, a submitted request is in the place the bookkeeping names, and in no other:
      queued, or in that one pend slot of a live socket, or in that one SELECT block, or completed by
      that one completion. */
  lemma ExactlyOnce(ss: seq<Stack>, acts: seq<Action>, n: nat, rid: Rid)
    requires Run(ss, acts) && Initial(ss[0]) && n <= |acts| && rid in ss[n].place
    ensures InQueue(ss[n], rid) <==> ss[n].place[rid] == Queued
    ensures forall i, k :: Holds(ss[n].tab, i, k, rid) <==> ss[n].place[rid] == OnSock(i, k)
    ensures forall m: nat :: Selecting(ss[n], m, rid) <==> ss[n].place[rid] == InSel(m)
    ensures forall m: nat :: Completed(ss[n], m, rid) <==> ss[n].place[rid] == Done(m)
    ensures !ss[n].place[rid].InHand?
  {
    RunInv(ss, acts, n);
    var st := ss[n];
    assert Found(st, rid);
    forall i, k | Holds(st.tab, i, k, rid) ensures st.place[rid] == OnSock(i, k) { assert Pended(st, i, k, rid); }
    if InQueue(st, rid) {
      var m :| 0 <= m < |st.queue| && st.queue[m].rid == rid;
      assert Waits(st, st.queue[m]);
    }
  }

  /** No request is ever completed twice. */
  lemma AtMostOnce(ss: seq<Stack>, acts: seq<Action>, n: nat, m1: nat, m2: nat)
    requires Run(ss, acts) && Initial(ss[0]) && n <= |acts| && m1 < m2 < |ss[n].log|
    ensures ss[n].log[m1].rid != ss[n].log[m2].rid
  {
    RunInv(ss, acts, n);
  }

  /** A request parked on a socket is parked on the very socket its descriptor names. */
  lemma ParkedOnOwn(ss: seq<Stack>, acts: seq<Action>, n: nat, i: nat, k: Kind, rid: Rid)
    requires Run(ss, acts) && Initial(ss[0]) && n <= |acts| && Holds(ss[n].tab, i, k, rid)
    ensures rid in ss[n].sockdesc && Lookup(ss[n].tab, ss[n].sockdesc[rid]) == Some(i)
  {
    RunInv(ss, acts, n);
    assert Pended(ss[n], i, k, rid);
    LookupOwn(ss[n], i);
    assert Desc(ss[n].tab[i].gen, i) != 0;
  }

  /** Tearing a socket down leaves nobody parked on it, no SELECT naming it, and completes every
      request it had parked. */
  lemma DestroyReleases(ss: seq<Stack>, acts: seq<Action>, n: nat, i: nat)
    requires Run(ss, acts) && Initial(ss[0]) && n <= |acts| && i < |ss[n].tab| && ss[n].tab[i].sock.Some?
    ensures var t := Destroy(ss[n], i); i < |t.tab| && t.tab[i].sock.None? && Unnamed(t, Desc(ss[n].tab[i].gen, i))
    ensures forall k, rid :: Holds(ss[n].tab, i, k, rid) ==>
              rid in Destroy(ss[n], i).place && Destroy(ss[n], i).place[rid].Done?
  {
    RunInv(ss, acts, n);
    DestroyKeeps(ss[n], i);
    var t := Destroy(ss[n], i);
    forall k, rid | Holds(ss[n].tab, i, k, rid) ensures rid in t.place && t.place[rid].Done? {
      assert Pended(ss[n], i, k, rid);
      assert PlaceEnds(ss[n].place[rid], t.place[rid]);
    }
  }

  /** A SELECT that names a socket when it is torn down is completed by that teardown. */
  lemma DestroyCompletesSelect(ss: seq<Stack>, acts: seq<Action>, n: nat, i: nat, m: nat)
    requires Run(ss, acts) && Initial(ss[0]) && n <= |acts| && i < |ss[n].tab| && ss[n].tab[i].sock.Some?
    requires m < |ss[n].sels| && ss[n].sels[m].Some? && HasDesc(ss[n].sels[m].value.items, Desc(ss[n].tab[i].gen, i))
    ensures var (t, rid) := (Destroy(ss[n], i), ss[n].sels[m].value.rid);
      m < |t.sels| && t.sels[m].None? && rid in t.place && t.place[rid].Done?
  {
    RunInv(ss, acts, n);
    DestroyKeeps(ss[n], i);
    var t, rid := Destroy(ss[n], i), ss[n].sels[m].value.rid;
    assert PlaceEnds(ss[n].place[rid], t.place[rid]);
    assert t.sels[m].None?;
    assert Found(t, rid);
  }

  // ---- handles -------------------------------------------------------------------------------------------

  /** The descriptor issued for the socket that is the `n`-th to use slot `i`. */
  function Issued(i: nat, n: nat): nat { Desc(n % GEN_WRAP + 1, i) }

  /** A descriptor resolves exactly when its slot is live and has been recycled a multiple of 65535
      times since it was issued. */
  lemma ResolvesIff(st: Stack, i: nat, n: nat)
    requires Shape(st) && i < |st.tab|
    ensures Lookup(st.tab, Issued(i, n)) == Some(i) <==> st.tab[i].sock.Some? && st.tab[i].inc % GEN_WRAP == n % GEN_WRAP
    ensures Lookup(st.tab, Issued(i, n)).Some? ==> Lookup(st.tab, Issued(i, n)) == Some(i)
  {
    DescParts(n % GEN_WRAP + 1, i);
  }

  /** So within 65534 recyclings of the slot it resolves only to the socket it was issued for. */
  lemma HandleSafe(ss: seq<Stack>, acts: seq<Action>, n: nat, i: nat, issued: nat)
    requires Run(ss, acts) && Initial(ss[0]) && n <= |acts| && i < |ss[n].tab|
    requires issued <= ss[n].tab[i].inc < issued + GEN_WRAP
    ensures Lookup(ss[n].tab, Issued(i, issued)).Some? <==> ss[n].tab[i].sock.Some? && ss[n].tab[i].inc == issued
  {
    RunInv(ss, acts, n);
    ResolvesIff(ss[n], i, issued);
    var d := ss[n].tab[i].inc - issued;
    if ss[n].tab[i].inc % GEN_WRAP == issued % GEN_WRAP {
      assert (issued + d) % GEN_WRAP == issued % GEN_WRAP && 0 <= d < GEN_WRAP;
      SameRemainder(issued, d);
    }
  }

  lemma SameRemainder(a: nat, d: nat)
    requires d < GEN_WRAP && (a + d) % GEN_WRAP == a % GEN_WRAP
    ensures d == 0
  {
  }

  lemma RunSnoc(ss: seq<Stack>, acts: seq<Action>, a: Action, t: Stack) returns (tt: seq<Stack>, more: seq<Action>)
    requires Run(ss, acts) && Enabled(ss[|acts|], a) && t == Step(ss[|acts|], a)
    ensures Run(tt, more) && |more| == |acts| + 1 && tt[0] == ss[0] && tt[|more|] == t
  {
    tt, more := ss + [t], acts + [a];
  }

  lemma RunCons(st: Stack, a: Action, ss: seq<Stack>, acts: seq<Action>) returns (tt: seq<Stack>, more: seq<Action>)
    requires Run(ss, acts) && Enabled(st, a) && ss[0] == Step(st, a)
    ensures Run(tt, more) && tt[0] == st && tt[|more|] == ss[|acts|]
  {
    tt, more := [st] + ss, [a] + acts;
    forall i | 0 <= i < |more| ensures Enabled(tt[i], more[i]) && tt[i + 1] == Step(tt[i], more[i]) {
      if i > 0 { assert tt[i] == ss[i - 1] && more[i] == acts[i - 1]; }
    }
  }

  // ---- the wrap ------------------------------------------------------------------------------------------

  lemma {:induction false} NoKids(st: Stack, i: nat, j: nat)
    requires Childless(st.tab, i)
    ensures DestroyKids(st, i, j) == st
    decreases SOC_MAX - j
  {
    if j < SOC_MAX { NoKids(st, i, j + 1); }
  }

  /** Destroying a socket without children recycles its own slot and no other. */
  lemma DestroyAlone(st: Stack, f: nat)
    requires Core(st) && f < |st.tab| && st.tab[f].sock.Some? && Childless(st.tab, f)
    ensures |Destroy(st, f).tab| == |st.tab| && forall j :: 0 <= j < |st.tab| && j != f ==> SameSlot(st.tab[j], Destroy(st, f).tab[j])
  {
    var a := AbortFrom(st, 0, Desc(st.tab[f].gen, f));
    AbortFromKeeps(st, 0, Desc(st.tab[f].gen, f));
    EndsChildless(st, a, f);
    NoKids(a, f, 0);
    AbortPendsKeeps(a, f);
    forall j | 0 <= j < |st.tab| && j != f ensures SameSlot(st.tab[j], Destroy(st, f).tab[j]) {
      assert SlotEnds(st.tab[j], a.tab[j]) && SlotEnds(a.tab[j], AbortPends(a, f).tab[j]);
    }
  }

  /** The same socket, whatever was parked on it, or still none. */
  predicate SameSlot(a: SockSlot, b: SockSlot) {
    b.inc == a.inc && b.sock.Some? == a.sock.Some? && (a.sock.Some? ==> b.sock.value.parent == a.sock.value.parent)
  }

  /** Listener `i` can open its next child in slot `f`: the lowest free one. */
  ghost predicate Opens(st: Stack, i: nat, f: nat) {
    && Inv(st, None) && i < |st.tab| && i != f && st.tab[i].sock.Some? && st.tab[i].sock.value.parent.None?
    && f < |st.tab| && st.tab[f].sock.None? && forall j :: 0 <= j < f ==> st.tab[j].sock.Some?
  }

  lemma OpenNext(st: Stack, i: nat, f: nat)
    requires Opens(st, i, f)
    ensures Enabled(st, PassiveOpen(i, true))
    ensures var a := Step(st, PassiveOpen(i, true));
      Inv(a, None) && |a.tab| == |st.tab| && a.tab[f].sock.Some? && a.tab[f].inc == st.tab[f].inc && Childless(a.tab, f)
      && forall j :: 0 <= j < |st.tab| && j != f ==> a.tab[j] == st.tab[j]
  {
    StepKeeps(st, PassiveOpen(i, true));
    assert FreeSlot(st.tab, 0) == f;
    var a := Step(st, PassiveOpen(i, true));
    forall j | 0 <= j < |a.tab| ensures !ChildOf(a.tab, j, f) {}
  }

  lemma ResetNext(st: Stack, i: nat, f: nat)
    requires Inv(st, None) && i < |st.tab| && i != f && st.tab[i].sock.Some? && st.tab[i].sock.value.parent.None?
    requires f < |st.tab| && st.tab[f].sock.Some? && Childless(st.tab, f) && forall j :: 0 <= j < f ==> st.tab[j].sock.Some?
    ensures Enabled(st, Reset(f)) && Opens(Step(st, Reset(f)), i, f) && Step(st, Reset(f)).tab[f].inc == st.tab[f].inc + 1
  {
    StepKeeps(st, Reset(f));
    DestroyKeeps(st, f);
    DestroyAlone(st, f);
  }

  /** `c` sockets come and go in slot `f`. */
  lemma {:induction false} Recycles(st: Stack, i: nat, f: nat, c: nat) returns (ss: seq<Stack>, acts: seq<Action>)
    requires Opens(st, i, f)
    ensures Run(ss, acts) && ss[0] == st && Opens(ss[|acts|], i, f) && ss[|acts|].tab[f].inc == st.tab[f].inc + c
  {
    if c == 0 {
      ss, acts := [st], [];
    } else {
      ss, acts := Recycles(st, i, f, c - 1);
      var b := ss[|acts|];
      OpenNext(b, i, f);
      var a := Step(b, PassiveOpen(i, true));
      ResetNext(a, i, f);
      ss, acts := RunSnoc(ss, acts, PassiveOpen(i, true), a);
      ss, acts := RunSnoc(ss, acts, Reset(f), Step(a, Reset(f)));
    }
  }

  /** The first socket in slot `f` goes, 65534 come and go, and one more comes. */
  lemma FullTurn(s: Stack, i: nat, f: nat) returns (tt: seq<Stack>, more: seq<Action>)
    requires Inv(s, None) && i < |s.tab| && i != f && s.tab[i].sock.Some? && s.tab[i].sock.value.parent.None?
    requires f < |s.tab| && s.tab[f].sock.Some? && Childless(s.tab, f) && forall j :: 0 <= j < f ==> s.tab[j].sock.Some?
    ensures Run(tt, more) && tt[0] == s && Inv(tt[|more|], None) && f < |tt[|more|].tab|
    ensures tt[|more|].tab[f].sock.Some? && tt[|more|].tab[f].inc == s.tab[f].inc + GEN_WRAP
  {
    ResetNext(s, i, f);
    var a := Step(s, Reset(f));
    tt, more := Recycles(a, i, f, GEN_WRAP - 1);
    tt, more := RunCons(s, Reset(f), tt, more);
    var b := tt[|more|];
    OpenNext(b, i, f);
    tt, more := RunSnoc(tt, more, PassiveOpen(i, true), Step(b, PassiveOpen(i, true)));
  }

  lemma SameTurn(a: nat)
    ensures (a + GEN_WRAP) % GEN_WRAP == a % GEN_WRAP
  {
  }

  /** The bound is sharp: from any state, destroy a socket in slot `f` and let a listener open and lose 65534
      children there; the next child is what the first socket's descriptor now names. */
  lemma HandleWraps(ss: seq<Stack>, acts: seq<Action>, n: nat, i: nat, f: nat, inc: nat) returns (tt: seq<Stack>, more: seq<Action>)
    requires Run(ss, acts) && Initial(ss[0]) && n <= |acts| && i < |ss[n].tab| && i != f
    requires ss[n].tab[i].sock.Some? && ss[n].tab[i].sock.value.parent.None?
    requires f < |ss[n].tab| && ss[n].tab[f].sock.Some? && ss[n].tab[f].inc == inc
    requires Childless(ss[n].tab, f) && forall j :: 0 <= j < f ==> ss[n].tab[j].sock.Some?
    ensures Lookup(ss[n].tab, Issued(f, inc)) == Some(f)
    ensures Run(tt, more) && tt[0] == ss[n]
    ensures var t := tt[|more|]; Lookup(t.tab, Issued(f, inc)) == Some(f) && t.tab[f].inc == inc + GEN_WRAP
  {
    RunInv(ss, acts, n);
    ResolvesIff(ss[n], f, inc);
    tt, more := FullTurn(ss[n], i, f);
    SameTurn(inc);
    ResolvesIff(tt[|more|], f, inc);
  }

  /** A socket is only ever reached by a caller that owns it: its application's recorded identity. */
  lemma ForeignIsUnknown(ss: seq<Stack>, acts: seq<Action>, n: nat, desc: nat, ascb: nat, asid: nat)
    requires Run(ss, acts) && Initial(ss[0]) && n <= |acts| && ascb != 0 && Lookup(ss[n].tab, desc).Some?
    ensures var (st, i) := (ss[n], Lookup(ss[n].tab, desc).value); var a := AppIndex(st.apps, st.tab[i].sock.value.apptok);
      a.Some? && (SockOwned(st.tab, st.apps, desc, ascb, asid)
                   == if st.apps[a.value].ascb == ascb && st.apps[a.value].asid == asid then Some(i) else None)
  {
    OwnersLive(ss, acts, n, Lookup(ss[n].tab, desc).value);
  }

  // ---- owners ----------------------------------------------------------------------------------------------

  /** Every socket's token resolves to a live application, in every reachable state; so no socket
      outlives its application. */
  lemma OwnersLive(ss: seq<Stack>, acts: seq<Action>, n: nat, i: nat)
    requires Run(ss, acts) && Initial(ss[0]) && n <= |acts| && i < |ss[n].tab| && ss[n].tab[i].sock.Some?
    ensures AppIndex(ss[n].apps, ss[n].tab[i].sock.value.apptok).Some?
  {
    RunInv(ss, acts, n);
    assert Belongs(ss[n].apps, ss[n].tab[i].sock.value.apptok);
  }

  /** A sweep frees exactly the applications whose client is dead; one that is not due changes nothing. */
  lemma SweepExact(ss: seq<Stack>, acts: seq<Action>, n: nat, classify: (nat, nat) -> Verdict, due: bool, i: nat)
    requires Run(ss, acts) && Initial(ss[0]) && n <= |acts| && i < APP_MAX
    ensures var t := Sweep(ss[n], classify, due);
      |ss[n].apps| == |t.apps| == APP_MAX && if due then Swept(ss[n].apps[i], t.apps[i], classify) else t == ss[n]
  {
    RunInv(ss, acts, n);
    if due { SweepInv(ss[n], classify, 0, None); }
  }

  // ---- SELECT ------------------------------------------------------------------------------------------------

  /** After a readiness poke no parked SELECT has a ready item left. */
  lemma PokeCompletesReady(ss: seq<Stack>, acts: seq<Action>, n: nat, m: nat)
    requires Run(ss, acts) && Initial(ss[0]) && n <= |acts| && m < |ss[n].sels|
    ensures Idle(Poke(ss[n]), m)
  {
    RunInv(ss, acts, n);
    RescanFromKeeps(ss[n], 0);
  }
}
