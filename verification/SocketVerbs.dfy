/** What each verb does when its request is dispatched, over every run, in the numbers its caller sees
    (src/nsfreq.c, src/nsfsel.c). */
module SocketVerbs {
  import opened Options
  import opened Sockets
  import opened SocketSafety
  import opened SocketTheorems
  import opened SelectAborts
  import opened Selects

  // ---- who may act for an application ----------------------------------------------------------------------

  /** `token` is the one application slot `k`, in use, was given: its generation, then its index. */
  predicate Names(apps: seq<App>, token: nat, k: nat) {
    k < |apps| && apps[k].inuse && token == apps[k].gen * 0x1_0000 + k
  }

  /** The caller has the identity recorded for application `k`, or none, being in the stack's own address space. */
  predicate MayAct(apps: seq<App>, k: nat, ascb: nat, asid: nat)
    requires k < |apps|
  {
    ascb == 0 || (apps[k].ascb == ascb && apps[k].asid == asid)
  }

  /** The token names an application the caller may act for. */
  ghost predicate Entitled(apps: seq<App>, token: nat, ascb: nat, asid: nat) {
    exists k :: Names(apps, token, k) && MayAct(apps, k, ascb, asid)
  }

  lemma NamesIff(st: Stack, token: nat, k: nat)
    requires Shape(st) && token < WORD
    ensures Names(st.apps, token, k) <==> AppIndex(st.apps, token) == Some(k)
  {
    assert token == token / 0x1_0000 * 0x1_0000 + token % 0x1_0000 && token / 0x1_0000 < 0x1_0000;
    if k < |st.apps| { DescParts(st.apps[k].gen, k); }
  }

  lemma NoToken(st: Stack)
    requires Shape(st)
    ensures AppIndex(st.apps, 0).None?
  {
  }

  lemma Entitlement(st: Stack, token: nat, ascb: nat, asid: nat)
    requires Shape(st) && token < WORD
    ensures var held := Authenticate(st.apps, token, ascb, asid);
      if Entitled(st.apps, token, ascb, asid) then held == token && AppIndex(st.apps, token).Some? else AppIndex(st.apps, held).None?
  {
    NoToken(st);
    var i := AppIndex(st.apps, token);
    if i.Some? { NamesIff(st, token, i.value); }
    if Entitled(st.apps, token, ascb, asid) {
      var k: nat :| Names(st.apps, token, k) && MayAct(st.apps, k, ascb, asid);
      NamesIff(st, token, k);
    }
  }

  // ---- a dispatch -----------------------------------------------------------------------------------------------

  /** Step `n` of a run dispatches the request `q`. */
  ghost predicate Dispatches(ss: seq<Stack>, acts: seq<Action>, n: nat, q: Request) {
    Run(ss, acts) && Initial(ss[0]) && n < |acts| && acts[n].Dispatch? && ss[n].queue[0] == q
  }

  /** The request in hand. */
  function Taken(st: Stack): Stack
    requires st.queue != []
  {
    st.(queue := st.queue[1..], place := st.place[st.queue[0].rid := InHand])
  }

  lemma InHandInv(ss: seq<Stack>, acts: seq<Action>, n: nat, q: Request)
    requires Dispatches(ss, acts, n, q)
    ensures Inv(ss[n], None) && Inv(Taken(ss[n]), Some(q.rid)) && Inv(ss[n + 1], None)
    ensures q.desc < WORD && q.apptok < WORD && SockDesc(Taken(ss[n]), q.rid) == q.desc
    ensures ss[n + 1] == Handle(Taken(ss[n]), q, acts[n].ascb, acts[n].asid, acts[n].classify, acts[n].due)
  {
    RunInv(ss, acts, n);
    RunInv(ss, acts, n + 1);
    TakeKeeps(ss[n]);
    assert Waits(ss[n], q);
  }

  /** The request is completed, and no socket, application or SELECT is touched. */
  ghost predicate Answers(st: Stack, t: Stack, rid: Rid, retcode: int, errno: int, items: seq<Item>) {
    t.tab == st.tab && t.apps == st.apps && t.sels == st.sels && t.log == st.log + [Completion(rid, retcode, errno, items)]
  }

  /** Refused: completed with -1, and nothing else happens. */
  ghost predicate Refuses(st: Stack, t: Stack, rid: Rid, errno: int) {
    Answers(st, t, rid, -1, errno, [])
  }

  /** A request in hand is in no pend slot. */
  lemma InHandFree(st: Stack, rid: Rid, i: nat)
    requires Core(st) && rid in st.place && st.place[rid].InHand? && i < |st.tab| && st.tab[i].sock.Some?
    ensures ClearPends(st.tab[i].sock.value.pends, rid) == st.tab[i].sock.value.pends
  {
    forall k ensures !Holds(st.tab, i, k, rid) { assert !Pended(st, i, k, rid); }
    assert !Holds(st.tab, i, Recv, rid) && !Holds(st.tab, i, Accept, rid) && !Holds(st.tab, i, Connect, rid) && !Holds(st.tab, i, Send, rid);
  }

  lemma CompleteAnswers(st: Stack, rid: Rid, retcode: int, errno: int, items: seq<Item>)
    requires Core(st) && rid in st.place && st.place[rid].InHand?
    ensures Answers(st, Complete(st, rid, retcode, errno, items), rid, retcode, errno, items)
  {
    var i := Lookup(st.tab, SockDesc(st, rid));
    if i.Some? { InHandFree(st, rid, i.value); }
  }

  // ---- teardown takes what it should ------------------------------------------------------------------------------

  /** The same socket is still there. */
  predicate StillThere(a: SockSlot, b: SockSlot) {
    b.inc == a.inc && b.sock.Some? == a.sock.Some? && (a.sock.Some? ==> SameButPends(a.sock.value, b.sock.value))
  }

  predicate Spared(st: Stack, t: Stack, m: nat) {
    m < |st.tab| == |t.tab| && StillThere(st.tab[m], t.tab[m])
  }

  lemma SlotStill(a: SockSlot, b: SockSlot)
    requires SlotEnds(a, b) && b.inc == a.inc
    ensures StillThere(a, b)
  {
  }

  lemma LeafSpares(st: Stack, i: nat, m: nat)
    requires i < |st.tab| && st.tab[i].sock.Some? && m < |st.tab| && m != i
    ensures |DestroyLeaf(st, i).tab| == |st.tab| && DestroyLeaf(st, i).tab[m].inc == st.tab[m].inc
  {
    var a := AbortFrom(st, 0, Desc(st.tab[i].gen, i));
    AbortFromTears(st, 0, Desc(st.tab[i].gen, i));
    AbortPendsTears(a, i);
  }

  lemma {:induction false} KidsSpare(st: Stack, i: nat, j: nat, m: nat)
    requires m < |st.tab| && !ChildOf(st.tab, m, i)
    ensures |DestroyKids(st, i, j).tab| == |st.tab| && DestroyKids(st, i, j).tab[m].inc == st.tab[m].inc
    decreases SOC_MAX - j
  {
    if j < SOC_MAX {
      var a := DestroyKid(st, i, j);
      KidTears(st, i, j);
      if ChildOf(st.tab, j, i) { LeafSpares(st, j, m); }
      assert SlotEnds(st.tab[m], a.tab[m]);
      KidsSpare(a, i, j + 1, m);
    }
  }

  /** Tearing a socket down takes that socket and its children not yet accepted; every other socket stays. */
  lemma DestroySpares(st: Stack, i: nat, m: nat)
    requires Core(st) && i < |st.tab| && st.tab[i].sock.Some? && m < |st.tab| && m != i && !ChildOf(st.tab, m, i)
    ensures Spared(st, Destroy(st, i), m)
  {
    var a := AbortFrom(st, 0, Desc(st.tab[i].gen, i));
    AbortFromTears(st, 0, Desc(st.tab[i].gen, i));
    assert SlotEnds(st.tab[m], a.tab[m]);
    KidsSpare(a, i, 0, m);
    AbortPendsTears(DestroyKids(a, i, 0), i);
    DestroyTears(st, i);
    SlotStill(st.tab[m], Destroy(st, i).tab[m]);
  }

  /** A socket of another application. */
  predicate Alien(a: SockSlot, token: nat) { a.sock.Some? ==> a.sock.value.apptok != token }

  lemma SparedTrans(a: Stack, b: Stack, c: Stack, m: nat, token: nat)
    requires Spared(a, b, m) && Alien(a.tab[m], token)
    ensures Alien(b.tab[m], token) && (Spared(b, c, m) ==> Spared(a, c, m))
  {
  }

  lemma TermOneSpares(st: Stack, token: nat, i: nat, m: nat)
    requires Core(st) && m < |st.tab| && Alien(st.tab[m], token)
    ensures Spared(st, TermOne(st, token, i), m)
  {
    if i < |st.tab| && st.tab[i].sock.Some? && st.tab[i].sock.value.apptok == token { DestroySpares(st, i, m); }
  }

  lemma {:induction false} TermSpares(st: Stack, token: nat, i: nat, m: nat)
    requires Core(st) && m < |st.tab| && Alien(st.tab[m], token)
    ensures Spared(st, TermFrom(st, token, i), m)
    decreases SOC_MAX - i
  {
    if i < SOC_MAX {
      var a := TermOne(st, token, i);
      TermOneKeeps(st, token, i);
      TermOneSpares(st, token, i, m);
      TermSplits(st, token, i);
      SparedTrans(st, a, TermFrom(a, token, i + 1), m, token);
      TermSpares(a, token, i + 1, m);
    } else {
      TermStops(st, token, i);
    }
  }

  lemma TermStops(st: Stack, token: nat, i: nat)
    requires i >= SOC_MAX
    ensures TermFrom(st, token, i) == st
  {
  }

  // ---- TERMAPI and SOCKET -----------------------------------------------------------------------------------------

  lemma DispatchedWithout(st: Stack, q: Request, ascb: nat, asid: nat, classify: (nat, nat) -> Verdict, due: bool)
    requires Inv(st, Some(q.rid)) && q.apptok < WORD && (q.verb.TermApi? || q.verb.Socket?) && !Entitled(st.apps, q.apptok, ascb, asid)
    ensures Refuses(st, Handle(st, q, ascb, asid, classify, due), q.rid, 22)
  {
    Entitlement(st, q.apptok, ascb, asid);
    CompleteAnswers(st, q.rid, RETERR, EINVAL, []);
  }

  /** A TERMAPI or SOCKET whose token names no application, or one that is recorded for another address space, is
      refused with EINVAL: nothing of any application, socket or SELECT changes. */
  lemma StrangerRefused(ss: seq<Stack>, acts: seq<Action>, n: nat, q: Request)
    requires Dispatches(ss, acts, n, q) && (q.verb.TermApi? || q.verb.Socket?)
    requires !Entitled(ss[n].apps, q.apptok, acts[n].ascb, acts[n].asid)
    ensures Refuses(ss[n], ss[n + 1], q.rid, 22)
  {
    InHandInv(ss, acts, n, q);
    DispatchedWithout(Taken(ss[n]), q, acts[n].ascb, acts[n].asid, acts[n].classify, acts[n].due);
  }

  /** A socket of the application is gone; any other is still there. */
  predicate SlotTerminated(a: SockSlot, b: SockSlot, token: nat) {
    if Alien(a, token) then StillThere(a, b) else b.sock.None?
  }

  /** Application `k` is gone with its sockets and no others. */
  ghost predicate Terminated(st: Stack, t: Stack, k: nat, token: nat) {
    && k < |st.apps| && t.apps == st.apps[k := App(false, if st.apps[k].gen == 65535 then 1 else st.apps[k].gen + 1, 0, 0)]
    && |t.tab| == |st.tab|
    && forall m :: 0 <= m < |st.tab| ==> SlotTerminated(st.tab[m], t.tab[m], token)
  }

  lemma SlotTerminates(st: Stack, k: nat, token: nat, h: Option<Rid>, m: nat)
    requires Inv(st, h) && k < |st.apps| && st.apps[k].inuse && token == AppToken(st.apps, k) && m < |st.tab|
    ensures |Reclaim(st, k).tab| == |st.tab| && SlotTerminated(st.tab[m], Reclaim(st, k).tab[m], token)
  {
    ReclaimTears(st, k);
    if Alien(st.tab[m], token) {
      TermSpares(st, token, 0, m);
    } else {
      ReclaimInv(st, k, h);
      assert SlotEnds(st.tab[m], Reclaim(st, k).tab[m]);
    }
  }

  lemma NextGen(gen: nat)
    requires 0 < gen <= GEN_WRAP
    ensures Bump(gen) == if gen == 65535 then 1 else gen + 1
  {
  }

  lemma SlotsTerminate(st: Stack, k: nat, token: nat, h: Option<Rid>)
    requires Inv(st, h) && k < |st.apps| && st.apps[k].inuse && token == AppToken(st.apps, k)
    ensures |Reclaim(st, k).tab| == |st.tab|
    ensures forall m :: 0 <= m < |st.tab| ==> SlotTerminated(st.tab[m], Reclaim(st, k).tab[m], token)
  {
    ReclaimTears(st, k);
    var t := Reclaim(st, k);
    forall m | 0 <= m < |st.tab| ensures SlotTerminated(st.tab[m], t.tab[m], token) { SlotTerminates(st, k, token, h, m); }
  }

  lemma ReclaimTerminates(st: Stack, k: nat, token: nat, h: Option<Rid>)
    requires Inv(st, h) && k < |st.apps| && st.apps[k].inuse && token == AppToken(st.apps, k)
    ensures Terminated(st, Reclaim(st, k), k, token) && Inv(Reclaim(st, k), h)
  {
    ReclaimInv(st, k, h);
    NextGen(st.apps[k].gen);
    SlotsTerminate(st, k, token, h);
  }

  lemma TermDispatched(st: Stack, q: Request, k: nat, ascb: nat, asid: nat, classify: (nat, nat) -> Verdict, due: bool)
    requires Inv(st, Some(q.rid)) && q.apptok < WORD && q.verb.TermApi? && Names(st.apps, q.apptok, k) && MayAct(st.apps, k, ascb, asid)
    ensures var t := Handle(st, q, ascb, asid, classify, due); Terminated(st, t, k, q.apptok) && t.log != [] && t.log[|t.log| - 1] == Completion(q.rid, 0, 0, [])
  {
    Entitlement(st, q.apptok, ascb, asid);
    NamesIff(st, q.apptok, k);
    ReclaimTerminates(st, k, q.apptok, Some(q.rid));
    CompleteAnswers(Reclaim(st, k), q.rid, RETOK, 0, []);
  }

  /** A TERMAPI by the application itself frees its slot and destroys each of its sockets and no other. */
  lemma OwnTerminates(ss: seq<Stack>, acts: seq<Action>, n: nat, q: Request, k: nat)
    requires Dispatches(ss, acts, n, q) && q.verb.TermApi?
    requires Names(ss[n].apps, q.apptok, k) && MayAct(ss[n].apps, k, acts[n].ascb, acts[n].asid)
    ensures Terminated(ss[n], ss[n + 1], k, q.apptok)
    ensures ss[n + 1].log != [] && ss[n + 1].log[|ss[n + 1].log| - 1] == Completion(q.rid, 0, 0, [])
  {
    InHandInv(ss, acts, n, q);
    TermDispatched(Taken(ss[n]), q, k, acts[n].ascb, acts[n].asid, acts[n].classify, acts[n].due);
  }

  /** Slot `f` is the lowest free one. */
  predicate Lowest(tab: seq<SockSlot>, f: nat) {
    f < |tab| && tab[f].sock.None? && forall j :: 0 <= j < f ==> tab[j].sock.Some?
  }

  lemma LowestIs(tab: seq<SockSlot>, f: nat)
    requires Lowest(tab, f)
    ensures FreeSlot(tab, 0) == f
  {
  }

  /** A new socket of the application, with nothing parked and nothing ready, in slot `f`; its descriptor, the slot's
      generation and the slot, is the return code, as a signed word. */
  ghost predicate Made(st: Stack, t: Stack, rid: Rid, token: nat, f: nat) {
    && f < |st.tab| && t.apps == st.apps && t.sels == st.sels
    && t.tab == st.tab[f := SockSlot(Some(Sock(token, Pends(None, None, None, None), Bits(false, false), None)), st.tab[f].gen, st.tab[f].inc)]
    && var desc := st.tab[f].gen * 0x1_0000 + f;
       t.log == st.log + [Completion(rid, if desc < 0x8000_0000 then desc else desc - 0x1_0000_0000, 0, [])]
  }

  lemma SocketDispatched(st: Stack, q: Request, ascb: nat, asid: nat, classify: (nat, nat) -> Verdict, due: bool)
    requires Inv(st, Some(q.rid)) && q.apptok < WORD && q.verb.Socket? && Entitled(st.apps, q.apptok, ascb, asid)
    ensures Handle(st, q, ascb, asid, classify, due) == DoSocket(st, q.rid, q.apptok, q.verb.known, q.verb.attaches)
    ensures AppIndex(st.apps, q.apptok).Some?
  {
    Entitlement(st, q.apptok, ascb, asid);
  }

  lemma SocketMade(st: Stack, rid: Rid, token: nat, f: nat)
    requires Inv(st, Some(rid)) && token < WORD && AppIndex(st.apps, token).Some? && Lowest(st.tab, f)
    ensures Made(st, DoSocket(st, rid, token, true, true), rid, token, f)
  {
    LowestIs(st.tab, f);
    CreateInv(st, token, true, None, Some(rid));
    CompleteAnswers(Create(st, token, true, None).0, rid, AsInt(Desc(st.tab[f].gen, f)), 0, []);
  }

  lemma SocketNotMade(st: Stack, rid: Rid, token: nat, attaches: bool)
    requires Inv(st, Some(rid)) && AppIndex(st.apps, token).Some?
    ensures Refuses(st, DoSocket(st, rid, token, false, attaches), rid, 43)
    ensures (forall i :: 0 <= i < |st.tab| ==> st.tab[i].sock.Some?) ==> Refuses(st, DoSocket(st, rid, token, true, attaches), rid, 24)
  {
    CompleteAnswers(st, rid, RETERR, EPROTONOSUPPORT, []);
    CompleteAnswers(st, rid, RETERR, EMFILE, []);
  }

  /** The attach failed: refused, the slot passed over, and every socket still there. */
  ghost predicate NotAttached(st: Stack, t: Stack, rid: Rid, f: nat) {
    && f < |st.tab| == |t.tab| && t.tab[f].sock.None? && t.tab[f].inc == st.tab[f].inc + 1
    && (forall m :: 0 <= m < |st.tab| && m != f ==> StillThere(st.tab[m], t.tab[m]))
    && t.apps == st.apps && t.log != [] && t.log[|t.log| - 1] == Completion(rid, -1, 24, [])
  }

  lemma SocketUnattached(st: Stack, rid: Rid, token: nat, f: nat)
    requires Inv(st, Some(rid)) && token < WORD && AppIndex(st.apps, token).Some? && Lowest(st.tab, f)
    ensures NotAttached(st, DoSocket(st, rid, token, true, false), rid, f)
  {
    LowestIs(st.tab, f);
    CreateInv(st, token, false, None, Some(rid));
    var s := Sock(token, NO_PENDS, Bits(false, false), None);
    var a := st.(tab := st.tab[f := st.tab[f].(sock := Some(s))]);
    OpenCore(st, f, s);
    DestroyKeeps(a, f);
    var t := Destroy(a, f);
    forall m | 0 <= m < |st.tab| && m != f ensures StillThere(st.tab[m], t.tab[m]) {
      assert !ChildOf(a.tab, m, f);
      DestroySpares(a, f, m);
    }
    CompleteAnswers(t, rid, RETERR, EMFILE, []);
  }

  /** A protocol that is not registered, no free slot, a failed attach, or a new socket in the lowest free slot. */
  ghost predicate Comes(st: Stack, t: Stack, q: Request, f: nat)
    requires q.verb.Socket?
  {
    && (!q.verb.known ==> Refuses(st, t, q.rid, 43))
    && (q.verb.known && (forall i :: 0 <= i < |st.tab| ==> st.tab[i].sock.Some?) ==> Refuses(st, t, q.rid, 24))
    && (q.verb.known && Lowest(st.tab, f) ==> if q.verb.attaches then Made(st, t, q.rid, q.apptok, f) else NotAttached(st, t, q.rid, f))
  }

  lemma SocketComes(st: Stack, q: Request, f: nat)
    requires Inv(st, Some(q.rid)) && q.apptok < WORD && q.verb.Socket? && AppIndex(st.apps, q.apptok).Some?
    ensures Comes(st, DoSocket(st, q.rid, q.apptok, q.verb.known, q.verb.attaches), q, f)
  {
    SocketNotMade(st, q.rid, q.apptok, q.verb.attaches);
    if q.verb.known && Lowest(st.tab, f) {
      if q.verb.attaches { SocketMade(st, q.rid, q.apptok, f); } else { SocketUnattached(st, q.rid, q.apptok, f); }
    }
  }

  lemma ComesBehind(st: Stack, t: Stack, q: Request, f: nat)
    requires st.queue != [] && q.verb.Socket? && Comes(Taken(st), t, q, f)
    ensures Comes(st, t, q, f)
  {
  }

  /** What a SOCKET by the application itself comes to. */
  lemma OwnSocket(ss: seq<Stack>, acts: seq<Action>, n: nat, q: Request, f: nat)
    requires Dispatches(ss, acts, n, q) && q.verb.Socket? && Entitled(ss[n].apps, q.apptok, acts[n].ascb, acts[n].asid)
    ensures Comes(ss[n], ss[n + 1], q, f)
  {
    InHandInv(ss, acts, n, q);
    SocketDispatched(Taken(ss[n]), q, acts[n].ascb, acts[n].asid, acts[n].classify, acts[n].due);
    SocketComes(Taken(ss[n]), q, f);
    ComesBehind(ss[n], ss[n + 1], q, f);
  }

  lemma LowestOf(tab: seq<SockSlot>) returns (f: nat)
    requires !forall i :: 0 <= i < |tab| ==> tab[i].sock.Some?
    ensures Lowest(tab, f)
  {
    f := FreeSlot(tab, 0);
  }

  lemma IssuedIs(st: Stack, f: nat)
    requires Shape(st) && f < |st.tab|
    ensures st.tab[f].gen * 0x1_0000 + f == Issued(f, st.tab[f].inc)
  {
  }

  /** A SOCKET that reports no error has made a socket, and what it reports is the descriptor issued for the very
      slot it filled: that descriptor resolves to it. */
  lemma SocketReports(ss: seq<Stack>, acts: seq<Action>, n: nat, q: Request) returns (f: nat)
    requires Dispatches(ss, acts, n, q) && q.verb.Socket?
    requires ss[n + 1].log != [] && ss[n + 1].log[|ss[n + 1].log| - 1].errno == 0
    ensures Entitled(ss[n].apps, q.apptok, acts[n].ascb, acts[n].asid) && Lowest(ss[n].tab, f) && Made(ss[n], ss[n + 1], q.rid, q.apptok, f)
    ensures ss[n + 1].log[|ss[n + 1].log| - 1].retcode == AsInt(Issued(f, ss[n].tab[f].inc))
    ensures Lookup(ss[n + 1].tab, Issued(f, ss[n].tab[f].inc)) == Some(f)
  {
    if !Entitled(ss[n].apps, q.apptok, acts[n].ascb, acts[n].asid) { StrangerRefused(ss, acts, n, q); }
    OwnSocket(ss, acts, n, q, 0);
    f := LowestOf(ss[n].tab);
    OwnSocket(ss, acts, n, q, f);
    RunInv(ss, acts, n);
    RunInv(ss, acts, n + 1);
    IssuedIs(ss[n], f);
    ResolvesIff(ss[n + 1], f, ss[n].tab[f].inc);
  }

  // ---- INITAPI ----------------------------------------------------------------------------------------------------

  /** Application slot `k` is the lowest free one. */
  predicate LowestApp(apps: seq<App>, k: nat) {
    k < |apps| && !apps[k].inuse && forall j :: 0 <= j < k ==> apps[j].inuse
  }

  predicate AllInUse(apps: seq<App>) { forall j :: 0 <= j < |apps| ==> apps[j].inuse }

  /** The caller's address space is entered in application slot `k`. */
  ghost predicate Registered(st: Stack, t: Stack, rid: Rid, k: nat, ascb: nat, asid: nat) {
    && k < |st.apps| && t.apps == st.apps[k := App(true, st.apps[k].gen, ascb, asid)] && t.tab == st.tab && t.sels == st.sels
    && t.log == st.log + [Completion(rid, 0, 0, [])]
  }

  lemma InitDispatched(st: Stack, q: Request, k: nat, ascb: nat, asid: nat, classify: (nat, nat) -> Verdict, due: bool)
    requires Inv(st, Some(q.rid)) && q.verb.InitApi? && LowestApp(st.apps, k)
    ensures Registered(st, Handle(st, q, ascb, asid, classify, due), q.rid, k, ascb, asid)
  {
    assert FreeApp(st.apps, 0) == k;
    AdmitInv(st, k, ascb, asid, Some(q.rid));
    CompleteAnswers(st.(apps := st.apps[k := App(true, st.apps[k].gen, ascb, asid)]), q.rid, RETOK, 0, []);
  }

  /** INITAPI enters the caller in the lowest free application slot. */
  lemma InitRegisters(ss: seq<Stack>, acts: seq<Action>, n: nat, q: Request, k: nat)
    requires Dispatches(ss, acts, n, q) && q.verb.InitApi? && LowestApp(ss[n].apps, k)
    ensures Registered(ss[n], ss[n + 1], q.rid, k, acts[n].ascb, acts[n].asid)
  {
    InHandInv(ss, acts, n, q);
    InitDispatched(Taken(ss[n]), q, k, acts[n].ascb, acts[n].asid, acts[n].classify, acts[n].due);
  }

  /** The client of an application has ended, as far as the classifier can tell. */
  predicate Ended(a: App, classify: (nat, nat) -> Verdict) {
    a.inuse && a.ascb != 0 && classify(a.ascb, a.asid) == Dead
  }

  ghost predicate AnyEnded(apps: seq<App>, classify: (nat, nat) -> Verdict) {
    exists j :: 0 <= j < |apps| && Ended(apps[j], classify)
  }

  lemma SweepFrees(st: Stack, classify: (nat, nat) -> Verdict, h: Option<Rid>)
    requires Inv(st, h) && AllInUse(st.apps)
    ensures AllInUse(SweepFrom(st, classify, 0).apps) <==> !AnyEnded(st.apps, classify)
  {
    SweepInv(st, classify, 0, h);
    var apps := SweepFrom(st, classify, 0).apps;
    forall j | 0 <= j < |apps| ensures apps[j].inuse <==> !Ended(st.apps[j], classify) { assert Swept(st.apps[j], apps[j], classify); }
  }

  lemma NoFreeApp(apps: seq<App>)
    ensures FreeApp(apps, 0) == |apps| <==> AllInUse(apps)
  {
  }

  /** What an INITAPI that finds every slot in use is told. */
  ghost function Told(rid: Rid, room: bool): Completion {
    if room then Completion(rid, 0, 0, []) else Completion(rid, -1, 24, [])
  }

  lemma InitSwept(st: Stack, q: Request, ascb: nat, asid: nat, classify: (nat, nat) -> Verdict, due: bool)
    requires Inv(st, Some(q.rid)) && q.verb.InitApi? && AllInUse(st.apps)
    ensures var t := Handle(st, q, ascb, asid, classify, due);
      t.log != [] && t.log[|t.log| - 1] == Told(q.rid, due && AnyEnded(st.apps, classify))
  {
    var a := Sweep(st, classify, due);
    NoFreeApp(st.apps);
    NoFreeApp(a.apps);
    if due { SweepFrees(st, classify, Some(q.rid)); }
  }

  /** With every slot in use, INITAPI succeeds exactly if a sweep is due and finds an application whose client has
      ended; otherwise it is refused with EMFILE. */
  lemma InitWhenFull(ss: seq<Stack>, acts: seq<Action>, n: nat, q: Request)
    requires Dispatches(ss, acts, n, q) && q.verb.InitApi? && AllInUse(ss[n].apps)
    ensures |ss[n].apps| == 64 && ss[n + 1].log != []
    ensures ss[n + 1].log[|ss[n + 1].log| - 1] == Told(q.rid, acts[n].due && AnyEnded(ss[n].apps, acts[n].classify))
  {
    InHandInv(ss, acts, n, q);
    InitSwept(Taken(ss[n]), q, acts[n].ascb, acts[n].asid, acts[n].classify, acts[n].due);
  }

  // ---- requests on a socket -----------------------------------------------------------------------------------------

  /** `desc` is the descriptor of the live socket in slot `i`, its generation and the slot, and the caller may act
      for the application it belongs to. */
  ghost predicate Drives(st: Stack, desc: nat, ascb: nat, asid: nat, i: nat) {
    && i < |st.tab| && st.tab[i].sock.Some? && desc == st.tab[i].gen * 0x1_0000 + i
    && (ascb == 0 || Entitled(st.apps, st.tab[i].sock.value.apptok, ascb, asid))
  }

  lemma DescIs(st: Stack, desc: nat, i: nat)
    requires Shape(st) && desc < WORD
    ensures Lookup(st.tab, desc) == Some(i) <==> i < |st.tab| && st.tab[i].sock.Some? && desc == st.tab[i].gen * 0x1_0000 + i
  {
    assert desc == desc / 0x1_0000 * 0x1_0000 + desc % 0x1_0000 && desc / 0x1_0000 < 0x1_0000;
    if i < |st.tab| { DescParts(st.tab[i].gen, i); }
  }

  lemma OwnerIs(st: Stack, token: nat, ascb: nat, asid: nat)
    requires Shape(st) && token < WORD && ascb != 0
    ensures Entitled(st.apps, token, ascb, asid) <==>
      var a := AppIndex(st.apps, token); a.Some? && st.apps[a.value].ascb == ascb && st.apps[a.value].asid == asid
  {
    var a := AppIndex(st.apps, token);
    if a.Some? { NamesIff(st, token, a.value); }
    if Entitled(st.apps, token, ascb, asid) {
      var k: nat :| Names(st.apps, token, k) && MayAct(st.apps, k, ascb, asid);
      NamesIff(st, token, k);
    }
  }

  lemma DrivesIff(st: Stack, h: Option<Rid>, desc: nat, ascb: nat, asid: nat, i: nat)
    requires Inv(st, h) && desc < WORD
    ensures SockOwned(st.tab, st.apps, desc, ascb, asid) == Some(i) <==> Drives(st, desc, ascb, asid, i)
  {
    DescIs(st, desc, i);
    if i < |st.tab| && st.tab[i].sock.Some? && ascb != 0 {
      assert Belongs(st.apps, st.tab[i].sock.value.apptok);
      OwnerIs(st, st.tab[i].sock.value.apptok, ascb, asid);
    }
  }

  /** A request on a descriptor that names no live socket, or another address space's, is refused with EBADF, and
      nothing else happens. */
  lemma UnknownRefused(ss: seq<Stack>, acts: seq<Action>, n: nat, q: Request)
    requires Dispatches(ss, acts, n, q) && q.verb.OnSocket?
    requires forall i: nat :: !Drives(ss[n], q.desc, acts[n].ascb, acts[n].asid, i)
    ensures Refuses(ss[n], ss[n + 1], q.rid, 9)
  {
    InHandInv(ss, acts, n, q);
    var st := Taken(ss[n]);
    var i := SockOwned(st.tab, st.apps, q.desc, acts[n].ascb, acts[n].asid);
    if i.Some? { DrivesIff(ss[n], None, q.desc, acts[n].ascb, acts[n].asid, i.value); }
    CompleteAnswers(st, q.rid, RETERR, EBADF, []);
  }

  /** The socket in slot `i` is gone, with its children not yet accepted and no other. */
  ghost predicate Closed(st: Stack, t: Stack, i: nat) {
    && i < |st.tab| == |t.tab| && t.tab[i].sock.None? && t.tab[i].inc == st.tab[i].inc + 1
    && forall m :: 0 <= m < |st.tab| && m != i && !ChildOf(st.tab, m, i) ==> StillThere(st.tab[m], t.tab[m])
  }

  /** The request is parked in that one pend slot, and nothing else happens. */
  ghost predicate Waiting(st: Stack, t: Stack, rid: Rid, i: nat, kind: Kind) {
    && t.log == st.log && t.apps == st.apps && t.sels == st.sels
    && (forall j, l, r :: Holds(t.tab, j, l, r) <==> Holds(st.tab, j, l, r) || (j == i && l == kind && r == rid))
    && |t.tab| == |st.tab| && forall m :: 0 <= m < |st.tab| ==> t.tab[m].inc == st.tab[m].inc && t.tab[m].sock.Some? == st.tab[m].sock.Some?
  }

  /** What comes of an operation on the socket in slot `i`. */
  ghost predicate Operates(st: Stack, t: Stack, rid: Rid, i: nat, op: SockOp)
    requires i < |st.tab| && st.tab[i].sock.Some?
  {
    match op
    case Local(retcode, errno) => Answers(st, t, rid, retcode, errno, [])
    case Delegate(Completes(retcode, errno)) => Answers(st, t, rid, retcode, errno, [])
    case Delegate(Refuses(err)) => Refuses(st, t, rid, err)
    case Delegate(Parks(kind)) =>
      if GetPend(st.tab[i].sock.value.pends, kind).Some? then Refuses(st, t, rid, 22) else Waiting(st, t, rid, i, kind)
    case Close(c) =>
      if c == Owned(false) then Answers(st, t, rid, 0, 0, [])
      else Closed(st, t, i) && exists m :: |st.log| <= m < |t.log| && t.log[m] == Completion(rid, 0, 0, [])
  }

  lemma CloseKeepsOthers(st: Stack, i: nat)
    requires Core(st) && i < |st.tab| && st.tab[i].sock.Some?
    ensures Closed(st, Destroy(st, i), i)
  {
    DestroyKeeps(st, i);
    forall m | 0 <= m < |st.tab| && m != i && !ChildOf(st.tab, m, i) ensures StillThere(st.tab[m], Destroy(st, i).tab[m]) {
      DestroySpares(st, i, m);
    }
  }

  lemma ClosedBehind(st: Stack, a: Stack, t: Stack, i: nat)
    requires Closed(a, t, i) && a.tab == st.tab
    ensures Closed(st, t, i)
  {
  }

  lemma ClosedThen(st: Stack, a: Stack, t: Stack, i: nat)
    requires Closed(st, a, i) && t.tab == a.tab
    ensures Closed(st, t, i)
  {
  }

  lemma CloseOperates(st: Stack, rid: Rid, i: nat, c: CloseResult)
    requires Inv(st, Some(rid)) && i < |st.tab| && st.tab[i].sock.Some?
    ensures Operates(st, DoClose(st, rid, i, c), rid, i, Close(c))
  {
    match c {
      case NotOwned =>
        var a := Destroy(st, i);
        CloseKeepsOthers(st, i);
        DestroyKeeps(st, i);
        EndsInv(st, a, Some(rid));
        CompleteAnswers(a, rid, RETOK, 0, []);
        var t := Complete(a, rid, RETOK, 0, []);
        ClosedThen(st, a, t, i);
        assert t.log[|a.log|] == Completion(rid, 0, 0, []);
      case Owned(destroys) =>
        CompleteAnswers(st, rid, RETOK, 0, []);
        if destroys {
          var a := Complete(st, rid, RETOK, 0, []);
          AnswerInv(st, rid, RETOK, 0, []);
          CloseKeepsOthers(a, i);
          DestroyKeeps(a, i);
          ClosedBehind(st, a, Destroy(a, i), i);
          assert Destroy(a, i).log[|st.log|] == Completion(rid, 0, 0, []);
        }
    }
  }

  lemma ParkWaits(st: Stack, rid: Rid, i: nat, kind: Kind)
    requires Inv(st, Some(rid)) && i < |st.tab| && st.tab[i].sock.Some? && GetPend(st.tab[i].sock.value.pends, kind).None?
    ensures Waiting(st, Park(st, rid, i, kind).0, rid, i, kind) && Park(st, rid, i, kind).1 == 0
  {
    var t := Park(st, rid, i, kind).0;
    forall j, l, r ensures Holds(t.tab, j, l, r) <==> Holds(st.tab, j, l, r) || (j == i && l == kind && r == rid) {
      match l case Recv => case Accept => case Connect => case Send =>
    }
  }

  lemma DelegateOperates(st: Stack, rid: Rid, i: nat, op: OpResult)
    requires Inv(st, Some(rid)) && i < |st.tab| && st.tab[i].sock.Some?
    ensures Operates(st, DoDelegate(st, rid, i, op), rid, i, Delegate(op))
  {
    match op {
      case Completes(retcode, errno) => CompleteAnswers(st, rid, retcode, errno, []);
      case Refuses(err) => CompleteAnswers(st, rid, RETERR, err, []);
      case Parks(kind) =>
        if GetPend(st.tab[i].sock.value.pends, kind).Some? { CompleteAnswers(st, rid, RETERR, EINVAL, []); } else { ParkWaits(st, rid, i, kind); }
    }
  }

  lemma SockOpOperates(st: Stack, rid: Rid, i: nat, op: SockOp)
    requires Inv(st, Some(rid)) && i < |st.tab| && st.tab[i].sock.Some?
    ensures Operates(st, DoSockOp(st, rid, i, op), rid, i, op)
  {
    match op {
      case Local(retcode, errno) => CompleteAnswers(st, rid, retcode, errno, []);
      case Close(c) => CloseOperates(st, rid, i, c);
      case Delegate(result) => DelegateOperates(st, rid, i, result);
    }
  }

  lemma OperatesBehind(st: Stack, u: Stack, t: Stack, rid: Rid, i: nat, op: SockOp)
    requires i < |st.tab| && st.tab[i].sock.Some? && u == st.(queue := u.queue, place := u.place) && Operates(u, t, rid, i, op)
    ensures Operates(st, t, rid, i, op)
  {
  }

  /** A request on the caller's own descriptor reaches that very socket: what the protocol completes is completed, what
      it parks waits in that one pend slot if the slot is free, and a CLOSE takes that socket and its children not yet
      accepted, and no other. */
  lemma OwnOperates(ss: seq<Stack>, acts: seq<Action>, n: nat, q: Request, i: nat)
    requires Dispatches(ss, acts, n, q) && q.verb.OnSocket? && Drives(ss[n], q.desc, acts[n].ascb, acts[n].asid, i)
    ensures Operates(ss[n], ss[n + 1], q.rid, i, q.verb.op)
  {
    InHandInv(ss, acts, n, q);
    var st := Taken(ss[n]);
    DrivesIff(ss[n], None, q.desc, acts[n].ascb, acts[n].asid, i);
    SockOpOperates(st, q.rid, i, q.verb.op);
    OperatesBehind(ss[n], st, ss[n + 1], q.rid, i, q.verb.op);
  }

  // ---- SELECT ---------------------------------------------------------------------------------------------------------

  /** Slot `i` is ready to be written, or read, and the item asks for that. */
  predicate Meets(tab: seq<SockSlot>, it: Item, i: nat, write: bool) {
    && i < |tab| && tab[i].sock.Some?
    && if write then it.want.write && tab[i].sock.value.ready.write else it.want.read && tab[i].sock.value.ready.read
  }

  /** The item names a socket of the caller's that is ready for what it asks in that direction. */
  ghost predicate ReadyFor(st: Stack, it: Item, ascb: nat, asid: nat, write: bool) {
    exists i: nat :: Drives(st, it.desc, ascb, asid, i) && Meets(st.tab, it, i, write)
  }

  lemma BitsReady(st: Stack, it: Item, ascb: nat, asid: nat, write: bool)
    requires Inv(st, None) && it.desc < WORD
    ensures var bits := ReadyBits(st.tab, st.apps, it, ascb, asid);
      (if write then bits.write else bits.read) <==> ReadyFor(st, it, ascb, asid, write)
  {
    var i := SockOwned(st.tab, st.apps, it.desc, ascb, asid);
    if i.Some? { DrivesIff(st, None, it.desc, ascb, asid, i.value); }
    if ReadyFor(st, it, ascb, asid, write) {
      var j: nat :| Drives(st, it.desc, ascb, asid, j) && Meets(st.tab, it, j, write);
      DrivesIff(st, None, it.desc, ascb, asid, j);
    }
  }

  ghost predicate Finds(st: Stack, asked: Item, found: Item, ascb: nat, asid: nat) {
    && found.desc == asked.desc && found.want == asked.want
    && (found.ready.read <==> ReadyFor(st, asked, ascb, asid, false)) && (found.ready.write <==> ReadyFor(st, asked, ascb, asid, true))
  }

  /** What a scan finds, item by item and direction by direction: that the item names a socket of the caller's that is
      ready for what it asks. So it counts nothing exactly if there is none. */
  lemma ScanFinds(ss: seq<Stack>, acts: seq<Action>, n: nat, items: seq<Item>, ascb: nat, asid: nat)
    requires Run(ss, acts) && Initial(ss[0]) && n <= |acts| && forall j :: 0 <= j < |items| ==> items[j].desc < WORD
    ensures var scanned := Scanned(ss[n].tab, ss[n].apps, items, ascb, asid);
      && |scanned| == |items|
      && (forall j :: 0 <= j < |items| ==> Finds(ss[n], items[j], scanned[j], ascb, asid))
      && (CountReady(scanned) == 0 <==>
            forall j :: 0 <= j < |items| ==> !ReadyFor(ss[n], items[j], ascb, asid, false) && !ReadyFor(ss[n], items[j], ascb, asid, true))
  {
    RunInv(ss, acts, n);
    var scanned := Scanned(ss[n].tab, ss[n].apps, items, ascb, asid);
    forall j | 0 <= j < |items| ensures Finds(ss[n], items[j], scanned[j], ascb, asid) {
      BitsReady(ss[n], items[j], ascb, asid, false);
      BitsReady(ss[n], items[j], ascb, asid, true);
    }
  }

  /** The request is parked in block `b`, which was empty, for what it asked, and nothing else happens. */
  ghost predicate ParkedIn(st: Stack, t: Stack, b: nat, q: Request, ascb: nat, asid: nat)
    requires q.verb.Select?
  {
    && b < |st.sels| && st.sels[b].None? && ParkedFor(t, b, q, ascb, asid)
    && t.log == st.log && t.tab == st.tab && t.apps == st.apps && t.sels == st.sels[b := t.sels[b]]
  }

  /** What a SELECT comes to as it is dispatched. */
  ghost predicate Selected(st: Stack, t: Stack, q: Request, ascb: nat, asid: nat)
    requires q.verb.Select?
  {
    var scanned := Scanned(st.tab, st.apps, q.verb.items, ascb, asid);
    if !q.verb.whole then Refuses(st, t, q.rid, 22)
    else if CountReady(scanned) > 0 then Answers(st, t, q.rid, CountReady(scanned), 0, scanned)
    else if q.verb.timed && q.verb.zero then Answers(st, t, q.rid, 0, 0, scanned)
    else if forall b :: 0 <= b < |st.sels| ==> st.sels[b].Some? then Answers(st, t, q.rid, -1, 24, scanned)
    else exists b :: ParkedIn(st, t, b, q, ascb, asid)
  }

  lemma SelectParks(st: Stack, q: Request, ascb: nat, asid: nat)
    requires q.verb.Select? && q.verb.whole && !Spot(st, q, ascb, asid) && FreeSel(st.sels, 0) < |st.sels|
    ensures ParkedIn(st, DoSelect(st, q.rid, q.verb.items, q.verb.whole, q.verb.timed, q.verb.zero, ascb, asid), FreeSel(st.sels, 0), q, ascb, asid)
  {
    ScanAsks(st, q.verb.items, q.verb.items, ascb, asid);
  }

  lemma SelectComes(st: Stack, q: Request, ascb: nat, asid: nat)
    requires Inv(st, Some(q.rid)) && q.verb.Select?
    ensures Selected(st, DoSelect(st, q.rid, q.verb.items, q.verb.whole, q.verb.timed, q.verb.zero, ascb, asid), q, ascb, asid)
  {
    var a := st.(sockdesc := st.sockdesc[q.rid := 0]);
    var scanned := Scanned(st.tab, st.apps, q.verb.items, ascb, asid);
    UndescInv(st, q.rid);
    if !q.verb.whole { CompleteAnswers(a, q.rid, RETERR, EINVAL, []); }
    else if Spot(st, q, ascb, asid) { CompleteAnswers(a, q.rid, CountReady(scanned), 0, scanned); }
    else if FreeSel(st.sels, 0) == |st.sels| { CompleteAnswers(a, q.rid, RETERR, EMFILE, scanned); }
    else { SelectParks(st, q, ascb, asid); }
  }

  lemma SelectedBehind(st: Stack, u: Stack, t: Stack, q: Request, ascb: nat, asid: nat)
    requires q.verb.Select? && u == st.(queue := u.queue, place := u.place) && Selected(u, t, q, ascb, asid)
    ensures Selected(st, t, q, ascb, asid)
  {
    if b :| ParkedIn(u, t, b, q, ascb, asid) { assert ParkedIn(st, t, b, q, ascb, asid); }
  }

  /** There are four SELECT blocks. A dispatched SELECT of whole items with nothing ready, not the poll form, is parked
      for what it asked exactly if one of them is empty, and otherwise completed with EMFILE. */
  lemma SelectDispatched(ss: seq<Stack>, acts: seq<Action>, n: nat, q: Request)
    requires Dispatches(ss, acts, n, q) && q.verb.Select?
    ensures |ss[n].sels| == 4 && Selected(ss[n], ss[n + 1], q, acts[n].ascb, acts[n].asid)
  {
    InHandInv(ss, acts, n, q);
    SelectComes(Taken(ss[n]), q, acts[n].ascb, acts[n].asid);
    SelectedBehind(ss[n], Taken(ss[n]), ss[n + 1], q, acts[n].ascb, acts[n].asid);
  }

  /** A verb the dispatcher does not know is refused with EINVAL. */
  lemma NoSuchVerb(ss: seq<Stack>, acts: seq<Action>, n: nat, q: Request)
    requires Dispatches(ss, acts, n, q) && q.verb.Unknown?
    ensures Refuses(ss[n], ss[n + 1], q.rid, 22)
  {
    InHandInv(ss, acts, n, q);
    CompleteAnswers(Taken(ss[n]), q.rid, RETERR, EINVAL, []);
  }

  // ---- what the protocols and the timer do ------------------------------------------------------------------------------

  /** Request `rid` leaves the pend slot it is in, and no other request moves. */
  ghost predicate Leaves(st: Stack, t: Stack, rid: Rid) {
    forall j, l, r :: Holds(t.tab, j, l, r) <==> r != rid && Holds(st.tab, j, l, r)
  }

  lemma FinishLeaves(st: Stack, i: nat, kind: Kind, rid: Rid, retcode: int, errno: int)
    requires Core(st) && Holds(st.tab, i, kind, rid)
    ensures Leaves(st, Complete(st, rid, retcode, errno, []), rid)
  {
    assert Pended(st, i, kind, rid);
    var t := Complete(st, rid, retcode, errno, []);
    forall j, l, r ensures Holds(t.tab, j, l, r) <==> r != rid && Holds(st.tab, j, l, r) {
      CompleteTab(st, rid, retcode, errno, [], j, l, r);
    }
  }

  /** The protocol completes the request parked in a pend slot with its own result; no other pend slot moves. */
  lemma ProtocolFinishes(ss: seq<Stack>, acts: seq<Action>, n: nat, i: nat, kind: Kind, retcode: int, errno: int) returns (rid: Rid)
    requires Run(ss, acts) && Initial(ss[0]) && n < |acts| && acts[n] == Finish(i, kind, retcode, errno)
    ensures Holds(ss[n].tab, i, kind, rid) && Leaves(ss[n], ss[n + 1], rid)
    ensures var (st, t) := (ss[n], ss[n + 1]); t.log == st.log + [Completion(rid, retcode, errno, [])] && t.sels == st.sels && t.apps == st.apps
  {
    RunInv(ss, acts, n);
    assert Enabled(ss[n], acts[n]);
    rid := GetPend(ss[n].tab[i].sock.value.pends, kind).value;
    FinishLeaves(ss[n], i, kind, rid, retcode, errno);
  }

  predicate Expired(rid: Rid, c: Completion) { c.rid == rid && c.retcode == 0 && c.errno == 0 && CountReady(c.items) == 0 }

  predicate CutOff(c: Completion) { c.retcode == -1 && c.errno == 53 }

  /** A SELECT's timer empties its block and completes it with 0, no item ready. */
  lemma TimerFires(ss: seq<Stack>, acts: seq<Action>, n: nat, b: nat)
    requires Run(ss, acts) && Initial(ss[0]) && n < |acts| && acts[n] == Timeout(b)
    ensures b < |ss[n].sels| && ss[n].sels[b].Some? && ss[n].sels[b].value.timed && ss[n + 1].sels == ss[n].sels[b := None]
    ensures var (st, t) := (ss[n], ss[n + 1]); |t.log| == |st.log| + 1 && st.log <= t.log && Expired(st.sels[b].value.rid, t.log[|st.log|])
  {
    assert Enabled(ss[n], acts[n]);
    UnreadyNone(ss[n].sels[b].value.items);
    assert ss[n + 1].log == ss[n].log + [Completion(ss[n].sels[b].value.rid, 0, 0, Unready(ss[n].sels[b].value.items))];
  }

  /** A socket the protocol resets goes, with its children not yet accepted and no other; whatever was parked on them
      or named them is completed with ECONNABORTED, and nothing else is completed. */
  lemma ProtocolResets(ss: seq<Stack>, acts: seq<Action>, n: nat, i: nat)
    requires Run(ss, acts) && Initial(ss[0]) && n < |acts| && acts[n] == Reset(i)
    ensures Closed(ss[n], ss[n + 1], i) && ss[n].log <= ss[n + 1].log
    ensures var (st, t) := (ss[n], ss[n + 1]); forall m :: |st.log| <= m < |t.log| ==> CutOff(t.log[m])
  {
    RunInv(ss, acts, n);
    assert Enabled(ss[n], acts[n]);
    CloseKeepsOthers(ss[n], i);
    DestroyEnds(ss[n], i);
  }

  /** A child socket is made in the lowest free slot, of its listener's application; with none free nothing happens. */
  lemma ChildOpens(ss: seq<Stack>, acts: seq<Action>, n: nat, i: nat, f: nat)
    requires Run(ss, acts) && Initial(ss[0]) && n < |acts| && acts[n] == PassiveOpen(i, true)
    ensures i < |ss[n].tab| && ss[n].tab[i].sock.Some?
    ensures Lowest(ss[n].tab, f) ==> ss[n + 1] == ss[n].(tab := ss[n].tab[f :=
      SockSlot(Some(Sock(ss[n].tab[i].sock.value.apptok, Pends(None, None, None, None), Bits(false, false), Some(i))), ss[n].tab[f].gen, ss[n].tab[f].inc)])
    ensures (forall j :: 0 <= j < |ss[n].tab| ==> ss[n].tab[j].sock.Some?) ==> ss[n + 1] == ss[n]
  {
    assert Enabled(ss[n], acts[n]);
    if Lowest(ss[n].tab, f) { LowestIs(ss[n].tab, f); }
  }
}
