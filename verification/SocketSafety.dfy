/** Exactly-once completion, live owners and handle safety, over every run of the socket layer. */
module SocketSafety {
  import opened Options
  import opened Sockets

  // ---- invariants -------------------------------------------------------------------------------------

  ghost predicate Shape(st: Stack) {
    && 0 < |st.tab| <= SOC_MAX && |st.apps| == APP_MAX && |st.sels| == SEL_MAX
    && (forall i :: 0 <= i < |st.tab| ==> st.tab[i].gen == st.tab[i].inc % GEN_WRAP + 1)
    && (forall i :: 0 <= i < |st.apps| ==> 0 < st.apps[i].gen <= GEN_WRAP)
  }

  /** A child's listener is a live socket of the same application that is itself nobody's child. */
  ghost predicate Family(tab: seq<SockSlot>) {
    forall j :: 0 <= j < |tab| && tab[j].sock.Some? && tab[j].sock.value.parent.Some? ==>
      var p := tab[j].sock.value.parent.value;
      p < |tab| && tab[p].sock.Some? && tab[p].sock.value.parent.None? && tab[p].sock.value.apptok == tab[j].sock.value.apptok
  }

  /** A socket of application `token` can have this parent, if any. */
  predicate Adopts(tab: seq<SockSlot>, token: nat, parent: Option<nat>) {
    parent.Some? ==>
      parent.value < |tab| && tab[parent.value].sock.Some? && tab[parent.value].sock.value.parent.None? && tab[parent.value].sock.value.apptok == token
  }

  predicate Holds(tab: seq<SockSlot>, i: nat, k: Kind, rid: Rid) {
    i < |tab| && tab[i].sock.Some? && GetPend(tab[i].sock.value.pends, k) == Some(rid)
  }

  /** A request parked in a pend slot is accounted for there, and its descriptor still names that socket. */
  ghost predicate Pended(st: Stack, i: nat, k: Kind, rid: Rid) {
    rid in st.place && st.place[rid] == OnSock(i, k) && i < |st.tab| && SockDesc(st, rid) == Desc(st.tab[i].gen, i)
  }

  ghost predicate PendsKnown(st: Stack) {
    forall i, k, rid :: Holds(st.tab, i, k, rid) ==> Pended(st, i, k, rid)
  }

  ghost predicate SelsKnown(st: Stack) {
    forall n :: 0 <= n < |st.sels| && st.sels[n].Some? ==>
      var rid := st.sels[n].value.rid; rid in st.place && st.place[rid] == InSel(n) && SockDesc(st, rid) == 0
  }

  ghost predicate LogKnown(st: Stack) {
    forall n :: 0 <= n < |st.log| ==> st.log[n].rid in st.place && st.place[st.log[n].rid] == Done(n)
  }

  /** A submitted request is where the bookkeeping says. */
  ghost predicate Found(st: Stack, rid: Rid) {
    rid in st.place ==>
      match st.place[rid]
      case Queued => true
      case InHand => true
      case OnSock(i, k) => Holds(st.tab, i, k, rid)
      case InSel(n) => n < |st.sels| && st.sels[n].Some? && st.sels[n].value.rid == rid
      case Done(n) => n < |st.log| && st.log[n].rid == rid
  }

  ghost predicate Places(st: Stack) {
    && PendsKnown(st) && SelsKnown(st) && LogKnown(st)
    && forall rid :: Found(st, rid)
  }

  ghost predicate Waits(st: Stack, q: Request) {
    q.rid in st.place && st.place[q.rid] == Queued && SockDesc(st, q.rid) == q.desc && q.desc < WORD && q.apptok < WORD
  }

  ghost predicate QueueOk(st: Stack) {
    && (forall m :: 0 <= m < |st.queue| ==> Waits(st, st.queue[m]))
    && (forall m, n :: 0 <= m < n < |st.queue| ==> st.queue[m].rid != st.queue[n].rid)
    && (forall rid :: rid in st.place && st.place[rid] == Queued ==> exists m :: 0 <= m < |st.queue| && st.queue[m].rid == rid)
  }

  predicate Belongs(apps: seq<App>, token: nat) {
    token < WORD && AppIndex(apps, token).Some?
  }

  /** Every live socket belongs to a live application. */
  ghost predicate Tokens(st: Stack) {
    forall i :: 0 <= i < |st.tab| && st.tab[i].sock.Some? ==> Belongs(st.apps, st.tab[i].sock.value.apptok)
  }

  ghost predicate Core(st: Stack) {
    Shape(st) && Family(st.tab) && Places(st)
  }

  // ---- descriptors ----------------------------------------------------------------------------------------

  lemma DescParts(gen: nat, id: nat)
    requires gen <= GEN_WRAP && id < 0x1_0000
    ensures Desc(gen, id) % 0x1_0000 == id && Desc(gen, id) / 0x1_0000 % 0x1_0000 == gen
  {
  }

  lemma LookupOwn(st: Stack, i: nat)
    requires Shape(st) && i < |st.tab| && st.tab[i].sock.Some?
    ensures Lookup(st.tab, Desc(st.tab[i].gen, i)) == Some(i)
  {
    DescParts(st.tab[i].gen, i);
  }

  // ---- completing one request ----------------------------------------------------------------------------------

  predicate Parked(p: Place) { p.OnSock? || p.InSel? }

  predicate Shrinks(a: Option<Rid>, b: Option<Rid>) { b == a || b == None }

  predicate SameButPends(s: Sock, t: Sock) {
    && t.apptok == s.apptok && t.ready == s.ready && t.parent == s.parent
    && Shrinks(s.pends.recv, t.pends.recv) && Shrinks(s.pends.accept, t.pends.accept)
    && Shrinks(s.pends.connect, t.pends.connect) && Shrinks(s.pends.send, t.pends.send)
  }

  /** The socket is still there, or has been recycled once. */
  predicate SlotEnds(a: SockSlot, b: SockSlot) {
    || (b.gen == a.gen && b.inc == a.inc && b.sock.Some? == a.sock.Some? && (a.sock.Some? ==> SameButPends(a.sock.value, b.sock.value)))
    || (a.sock.Some? && b.sock.None? && b.inc == a.inc + 1)
  }

  predicate PlaceEnds(p: Place, q: Place) {
    q == p || (q.Done? && Parked(p))
  }

  /** Work that only completes parked requests and destroys sockets. */
  ghost predicate Ends(st: Stack, t: Stack) {
    && t.apps == st.apps && t.queue == st.queue && t.sockdesc == st.sockdesc
    && |t.tab| == |st.tab| && |t.sels| == |st.sels| && st.log <= t.log
    && (forall i :: 0 <= i < |st.tab| ==> SlotEnds(st.tab[i], t.tab[i]))
    && t.place.Keys == st.place.Keys
    && (forall rid :: rid in st.place ==> PlaceEnds(st.place[rid], t.place[rid]))
  }

  lemma EndsTrans(a: Stack, b: Stack, c: Stack)
    requires Ends(a, b) && Ends(b, c)
    ensures Ends(a, c)
  {
    forall i | 0 <= i < |a.tab| ensures SlotEnds(a.tab[i], c.tab[i]) {
      assert SlotEnds(a.tab[i], b.tab[i]) && SlotEnds(b.tab[i], c.tab[i]);
    }
    forall rid | rid in a.place ensures PlaceEnds(a.place[rid], c.place[rid]) {
      assert PlaceEnds(a.place[rid], b.place[rid]);
    }
  }

  lemma CompleteTab(st: Stack, rid: Rid, retcode: int, errno: int, items: seq<Item>, i: nat, k: Kind, r: Rid)
    requires Core(st) && rid in st.place && (st.place[rid].InHand? || st.place[rid].OnSock?)
    ensures Holds(Complete(st, rid, retcode, errno, items).tab, i, k, r) <==> r != rid && Holds(st.tab, i, k, r)
  {
    assert Found(st, rid);
    if st.place[rid].OnSock? {
      assert Pended(st, st.place[rid].i, st.place[rid].k, rid);
      LookupOwn(st, st.place[rid].i);
    }
    if Holds(st.tab, i, k, rid) { assert Pended(st, i, k, rid); }
  }

  lemma CompletePended(st: Stack, rid: Rid, retcode: int, errno: int, items: seq<Item>, i: nat, k: Kind, r: Rid)
    requires Core(st) && rid in st.place && (st.place[rid].InHand? || st.place[rid].OnSock?)
    ensures var t := Complete(st, rid, retcode, errno, items); Holds(t.tab, i, k, r) ==> Pended(t, i, k, r)
  {
    CompleteTab(st, rid, retcode, errno, items, i, k, r);
    if Holds(st.tab, i, k, r) { assert Pended(st, i, k, r); }
  }

  lemma CompleteFound(st: Stack, rid: Rid, retcode: int, errno: int, items: seq<Item>, r: Rid)
    requires Core(st) && rid in st.place && (st.place[rid].InHand? || st.place[rid].OnSock?)
    ensures Found(Complete(st, rid, retcode, errno, items), r)
  {
    assert Found(st, r);
    if r in st.place && st.place[r].OnSock? {
      CompleteTab(st, rid, retcode, errno, items, st.place[r].i, st.place[r].k, r);
    }
  }

  lemma CompleteKeeps(st: Stack, rid: Rid, retcode: int, errno: int, items: seq<Item>)
    requires Core(st) && rid in st.place && (st.place[rid].InHand? || st.place[rid].OnSock?)
    ensures var t := Complete(st, rid, retcode, errno, items);
      Core(t) && t.sels == st.sels && t.log == st.log + [Completion(rid, retcode, errno, items)]
      && t.place == st.place[rid := Done(|st.log|)] && Ends(st.(place := t.place), t)
      && forall i :: 0 <= i < |st.tab| ==> t.tab[i].inc == st.tab[i].inc
  {
    var t := Complete(st, rid, retcode, errno, items);
    forall i, k, r | Holds(t.tab, i, k, r) ensures Pended(t, i, k, r) {
      CompletePended(st, rid, retcode, errno, items, i, k, r);
    }
    forall r ensures Found(t, r) { CompleteFound(st, rid, retcode, errno, items, r); }
  }

  // ---- SELECT --------------------------------------------------------------------------------------------------

  lemma SelFinishKeeps(st: Stack, n: nat, retcode: int, errno: int, items: seq<Item>)
    requires Core(st) && n < |st.sels| && st.sels[n].Some?
    ensures var t := SelFinish(st, n, retcode, errno, items);
      Core(t) && Ends(st, t) && t.sels == st.sels[n := None] && t.log == st.log + [Completion(st.sels[n].value.rid, retcode, errno, items)]
      && forall i :: 0 <= i < |st.tab| ==> t.tab[i].inc == st.tab[i].inc
  {
    var rid := st.sels[n].value.rid;
    var u := st.(sels := st.sels[n := None], place := st.place[rid := InHand]);
    assert Core(u) by {
      forall i, k, r | Holds(u.tab, i, k, r) ensures Pended(u, i, k, r) { assert Pended(st, i, k, r); }
      forall r ensures Found(u, r) { assert Found(st, r); }
    }
    CompleteKeeps(u, rid, retcode, errno, items);
    assert u.place[rid := Done(|st.log|)] == st.place[rid := Done(|st.log|)];
    assert SelFinish(st, n, retcode, errno, items) == Complete(u, rid, retcode, errno, items);
  }

  lemma RescanKeeps(st: Stack, n: nat)
    requires Core(st) && n < |st.sels|
    ensures var t := Rescan(st, n); Core(t) && Ends(st, t) && forall m :: 0 <= m < |st.sels| && m != n ==> t.sels[m] == st.sels[m]
    ensures var t := Rescan(st, n);
      t.sels[n].Some? ==> CountReady(Scanned(st.tab, st.apps, t.sels[n].value.items, t.sels[n].value.ascb, t.sels[n].value.asid)) == 0
  {
    if st.sels[n].Some? {
      var cb := st.sels[n].value;
      var items := Scanned(st.tab, st.apps, cb.items, cb.ascb, cb.asid);
      if CountReady(items) > 0 {
        SelFinishKeeps(st, n, CountReady(items), 0, items);
      } else {
        var t := Rescan(st, n);
        assert Scanned(st.tab, st.apps, items, cb.ascb, cb.asid) == items;
        forall i, k, r | Holds(t.tab, i, k, r) ensures Pended(t, i, k, r) { assert Pended(st, i, k, r); }
        forall r ensures Found(t, r) { assert Found(st, r); }
      }
    }
  }

  lemma AbortKeeps(st: Stack, n: nat, desc: nat)
    requires Core(st) && n < |st.sels|
    ensures var t := Abort(st, n, desc); Core(t) && Ends(st, t) && forall m :: 0 <= m < |st.sels| && m != n ==> t.sels[m] == st.sels[m]
    ensures var t := Abort(st, n, desc); t.sels[n].Some? ==> t.sels[n] == st.sels[n] && !HasDesc(t.sels[n].value.items, desc)
    ensures forall i :: 0 <= i < |st.tab| ==> Abort(st, n, desc).tab[i].inc == st.tab[i].inc
  {
    if st.sels[n].Some? && HasDesc(st.sels[n].value.items, desc) {
      SelFinishKeeps(st, n, RETERR, ECONNABORTED, st.sels[n].value.items);
    }
  }

  lemma {:induction false} AbortFromKeeps(st: Stack, n: nat, desc: nat)
    requires Core(st)
    ensures var t := AbortFrom(st, n, desc); Core(t) && Ends(st, t)
    ensures var t := AbortFrom(st, n, desc);
      forall m :: n <= m < |st.sels| && t.sels[m].Some? ==> t.sels[m] == st.sels[m] && !HasDesc(t.sels[m].value.items, desc)
    ensures forall m :: 0 <= m < n && m < |st.sels| ==> AbortFrom(st, n, desc).sels[m] == st.sels[m]
    ensures forall i :: 0 <= i < |st.tab| ==> AbortFrom(st, n, desc).tab[i].inc == st.tab[i].inc
    decreases |st.sels| - n
  {
    if n < |st.sels| {
      AbortKeeps(st, n, desc);
      AbortFromKeeps(Abort(st, n, desc), n + 1, desc);
      EndsTrans(st, Abort(st, n, desc), AbortFrom(st, n, desc));
    }
  }

  // ---- teardown ------------------------------------------------------------------------------------------------

  lemma AbortPendKeeps(st: Stack, i: nat, k: Kind)
    requires Core(st)
    ensures var t := AbortPend(st, i, k); Core(t) && Ends(st, t) && t.sels == st.sels
    ensures forall rid :: !Holds(AbortPend(st, i, k).tab, i, k, rid)
    ensures forall j :: 0 <= j < |st.tab| ==> AbortPend(st, i, k).tab[j].inc == st.tab[j].inc
  {
    if i < |st.tab| && st.tab[i].sock.Some? && GetPend(st.tab[i].sock.value.pends, k).Some? {
      var rid := GetPend(st.tab[i].sock.value.pends, k).value;
      assert Holds(st.tab, i, k, rid);
      assert Pended(st, i, k, rid);
      CompleteKeeps(st, rid, RETERR, ECONNABORTED, []);
      forall r ensures !Holds(AbortPend(st, i, k).tab, i, k, r) {
        CompleteTab(st, rid, RETERR, ECONNABORTED, [], i, k, r);
      }
    }
  }

  lemma EndsNoPend(st: Stack, t: Stack, i: nat, k: Kind)
    requires Ends(st, t) && forall rid :: !Holds(st.tab, i, k, rid)
    ensures forall rid :: !Holds(t.tab, i, k, rid)
  {
    forall rid ensures !Holds(t.tab, i, k, rid) {
      assert !Holds(st.tab, i, k, rid);
      if i < |st.tab| { assert SlotEnds(st.tab[i], t.tab[i]); }
    }
  }

  lemma AbortPendsKeeps(st: Stack, i: nat)
    requires Core(st)
    ensures var t := AbortPends(st, i); Core(t) && Ends(st, t) && t.sels == st.sels
    ensures forall k, rid :: !Holds(AbortPends(st, i).tab, i, k, rid)
    ensures forall j :: 0 <= j < |st.tab| ==> AbortPends(st, i).tab[j].inc == st.tab[j].inc
  {
    var a := AbortPend(st, i, Recv);
    var b := AbortPend(a, i, Accept);
    var c := AbortPend(b, i, Connect);
    var d := AbortPend(c, i, Send);
    AbortPendKeeps(st, i, Recv);
    AbortPendKeeps(a, i, Accept);
    AbortPendKeeps(b, i, Connect);
    AbortPendKeeps(c, i, Send);
    EndsNoPend(a, b, i, Recv); EndsNoPend(b, c, i, Recv); EndsNoPend(c, d, i, Recv);
    EndsNoPend(b, c, i, Accept); EndsNoPend(c, d, i, Accept);
    EndsNoPend(c, d, i, Connect);
    EndsTrans(st, a, b); EndsTrans(st, b, c); EndsTrans(st, c, d);
    forall k, rid ensures !Holds(d.tab, i, k, rid) {
      match k case Recv => case Accept => case Connect => case Send =>
    }
  }

  ghost predicate Childless(tab: seq<SockSlot>, i: nat) {
    forall j :: 0 <= j < |tab| ==> !ChildOf(tab, j, i)
  }

  lemma BumpGen(inc: nat)
    ensures Bump(inc % GEN_WRAP + 1) == (inc + 1) % GEN_WRAP + 1
  {
  }

  lemma VacateKeeps(st: Stack, i: nat)
    requires Core(st) && i < |st.tab| && st.tab[i].sock.Some? && Childless(st.tab, i)
    requires forall k, rid :: !Holds(st.tab, i, k, rid)
    ensures Core(Vacate(st, i)) && Ends(st, Vacate(st, i))
  {
    var t := Vacate(st, i);
    BumpGen(st.tab[i].inc);
    forall j, k, r | Holds(t.tab, j, k, r) ensures Pended(t, j, k, r) { assert Holds(st.tab, j, k, r) && Pended(st, j, k, r); }
    forall r ensures Found(t, r) {
      assert Found(st, r);
      if r in st.place && st.place[r].OnSock? { assert !Holds(st.tab, i, st.place[r].k, r); }
    }
    forall j | 0 <= j < |t.tab| && t.tab[j].sock.Some? && t.tab[j].sock.value.parent.Some?
      ensures t.tab[j].sock.value.parent.value != i
    {
      assert !ChildOf(st.tab, j, i);
    }
  }

  lemma EndsChildless(st: Stack, t: Stack, i: nat)
    requires Ends(st, t) && Childless(st.tab, i)
    ensures Childless(t.tab, i)
  {
    forall j | 0 <= j < |t.tab| ensures !ChildOf(t.tab, j, i) {
      assert !ChildOf(st.tab, j, i) && SlotEnds(st.tab[j], t.tab[j]);
    }
  }

  /** Once told, no parked SELECT names the socket any more, whatever else ends meanwhile. */
  ghost predicate Unnamed(st: Stack, desc: nat) {
    forall n :: 0 <= n < |st.sels| && st.sels[n].Some? ==> !HasDesc(st.sels[n].value.items, desc)
  }

  /** SELECTs only leave. */
  ghost predicate SelsLeave(st: Stack, t: Stack) {
    |t.sels| == |st.sels| && forall n :: 0 <= n < |st.sels| && t.sels[n].Some? ==> t.sels[n] == st.sels[n]
  }

  lemma DestroyLeafKeeps(st: Stack, i: nat)
    requires Core(st) && Childless(st.tab, i) && i < |st.tab| && st.tab[i].sock.Some?
    ensures var t := DestroyLeaf(st, i);
      Core(t) && Ends(st, t) && SelsLeave(st, t) && t.tab[i].sock.None? && Unnamed(t, Desc(st.tab[i].gen, i))
    ensures forall j :: 0 <= j < |st.tab| && j != i ==> DestroyLeaf(st, i).tab[j].inc == st.tab[j].inc
  {
    var a := AbortFrom(st, 0, Desc(st.tab[i].gen, i));
    var b := AbortPends(a, i);
    AbortFromKeeps(st, 0, Desc(st.tab[i].gen, i));
    AbortPendsKeeps(a, i);
    EndsTrans(st, a, b);
    EndsChildless(st, b, i);
    assert SlotEnds(st.tab[i], b.tab[i]);
    VacateKeeps(b, i);
    EndsTrans(st, b, Vacate(b, i));
  }

  lemma DestroyKidKeeps(st: Stack, i: nat, j: nat)
    requires Core(st)
    ensures var t := DestroyKid(st, i, j); Core(t) && Ends(st, t) && SelsLeave(st, t) && !ChildOf(t.tab, j, i)
    ensures i < |st.tab| ==> DestroyKid(st, i, j).tab[i].inc == st.tab[i].inc
  {
    if ChildOf(st.tab, j, i) {
      assert Childless(st.tab, j);
      DestroyLeafKeeps(st, j);
    }
  }

  lemma EndsNotChild(st: Stack, t: Stack, j: nat, i: nat)
    requires Ends(st, t) && !ChildOf(st.tab, j, i)
    ensures !ChildOf(t.tab, j, i)
  {
    if j < |st.tab| { assert SlotEnds(st.tab[j], t.tab[j]); }
  }

  lemma {:induction false} DestroyKidsKeeps(st: Stack, i: nat, j: nat)
    requires Core(st)
    ensures var t := DestroyKids(st, i, j); Core(t) && Ends(st, t) && SelsLeave(st, t)
    ensures forall m :: j <= m < |st.tab| ==> !ChildOf(DestroyKids(st, i, j).tab, m, i)
    ensures i < |st.tab| ==> DestroyKids(st, i, j).tab[i].inc == st.tab[i].inc
    decreases SOC_MAX - j
  {
    if j < SOC_MAX {
      var a, t := DestroyKid(st, i, j), DestroyKids(st, i, j);
      DestroyKidKeeps(st, i, j);
      DestroyKidsKeeps(a, i, j + 1);
      EndsTrans(st, a, t);
      EndsNotChild(a, t, j, i);
    }
  }

  /** The checklist up to the moment the slot is vacated. */
  function Drained(st: Stack, i: nat): Stack
    requires i < |st.tab|
  {
    AbortPends(DestroyKids(AbortFrom(st, 0, Desc(st.tab[i].gen, i)), i, 0), i)
  }

  lemma DrainedKeeps(st: Stack, i: nat)
    requires Core(st) && i < |st.tab| && st.tab[i].sock.Some?
    ensures var c := Drained(st, i);
      Core(c) && Ends(st, c) && SelsLeave(st, c) && Unnamed(c, Desc(st.tab[i].gen, i)) && Childless(c.tab, i)
      && c.tab[i].inc == st.tab[i].inc && forall k, rid :: !Holds(c.tab, i, k, rid)
  {
    var a := AbortFrom(st, 0, Desc(st.tab[i].gen, i));
    var b := DestroyKids(a, i, 0);
    AbortFromKeeps(st, 0, Desc(st.tab[i].gen, i));
    DestroyKidsKeeps(a, i, 0);
    AbortPendsKeeps(b, i);
    EndsTrans(st, a, b);
    EndsTrans(st, b, AbortPends(b, i));
    EndsChildless(b, AbortPends(b, i), i);
  }

  /** `soc_destroy`: afterwards the slot is vacant, its generation has moved on, nobody is parked on
      it, and no parked SELECT names it. */
  lemma DestroyKeeps(st: Stack, i: nat)
    requires Core(st) && i < |st.tab| && st.tab[i].sock.Some?
    ensures var t := Destroy(st, i);
      Core(t) && Ends(st, t) && SelsLeave(st, t) && t.tab[i].sock.None? && t.tab[i].inc == st.tab[i].inc + 1
      && Unnamed(t, Desc(st.tab[i].gen, i))
    ensures forall rid :: rid in st.place ==> !(Destroy(st, i).place[rid].OnSock? && Destroy(st, i).place[rid].i == i)
  {
    var c := Drained(st, i);
    DrainedKeeps(st, i);
    assert SlotEnds(st.tab[i], c.tab[i]);
    VacateKeeps(c, i);
    EndsTrans(st, c, Vacate(c, i));
    var t := Destroy(st, i);
    assert t == Vacate(c, i);
    forall rid | rid in st.place ensures !(t.place[rid].OnSock? && t.place[rid].i == i) {
      assert Found(t, rid);
    }
  }

  ghost predicate NoneOf(tab: seq<SockSlot>, token: nat, i: nat) {
    i < |tab| && tab[i].sock.Some? ==> tab[i].sock.value.apptok != token
  }

  lemma TermOneKeeps(st: Stack, token: nat, i: nat)
    requires Core(st)
    ensures var t := TermOne(st, token, i); Core(t) && Ends(st, t) && SelsLeave(st, t) && NoneOf(t.tab, token, i)
  {
    if i < |st.tab| && st.tab[i].sock.Some? && st.tab[i].sock.value.apptok == token { DestroyKeeps(st, i); }
  }

  ghost predicate Termed(st: Stack, t: Stack, token: nat, i: nat) {
    Core(t) && Ends(st, t) && SelsLeave(st, t) && forall m :: i <= m < |st.tab| ==> NoneOf(t.tab, token, m)
  }

  lemma TermCons(st: Stack, a: Stack, t: Stack, token: nat, i: nat)
    requires Ends(st, a) && SelsLeave(st, a) && NoneOf(a.tab, token, i) && Termed(a, t, token, i + 1)
    ensures Termed(st, t, token, i)
  {
    EndsTrans(st, a, t);
    if i < |st.tab| { assert SlotEnds(a.tab[i], t.tab[i]); }
  }

  lemma {:induction false} TermFromKeeps(st: Stack, token: nat, i: nat)
    requires Core(st)
    ensures Termed(st, TermFrom(st, token, i), token, i)
    decreases SOC_MAX - i
  {
    if i >= SOC_MAX {
      TermDone(st, token, i);
    } else {
      var a := TermOne(st, token, i);
      TermOneKeeps(st, token, i);
      TermFromKeeps(a, token, i + 1);
      TermCons(st, a, TermFrom(a, token, i + 1), token, i);
    }
  }

  lemma TermDone(st: Stack, token: nat, i: nat)
    requires Core(st) && i >= SOC_MAX
    ensures Termed(st, st, token, i)
  {
  }

  // ---- the application registry --------------------------------------------------------------------------------

  /** Tokens that resolve differ from a freed slot's only if they named another slot. */
  lemma FreeToken(apps: seq<App>, i: nat, token: nat)
    requires i < |apps| <= APP_MAX && apps[i].gen <= GEN_WRAP && AppIndex(apps, token).Some?
    requires apps[i].inuse && token != AppToken(apps, i) && token < WORD
    ensures AppIndex(AppFree(apps, i), token) == AppIndex(apps, token)
  {
    DescParts(apps[i].gen, i);
    var idx, gen := token % 0x1_0000, token / 0x1_0000 % 0x1_0000;
    assert token == gen * 0x1_0000 + idx;
  }

  // ---- the whole invariant -------------------------------------------------------------------------------------

  /** `h` is the one request being dispatched, if any. */
  ghost predicate HandIs(st: Stack, h: Option<Rid>) {
    && (forall rid :: rid in st.place && st.place[rid].InHand? ==> h == Some(rid))
    && (h.Some? ==> h.value in st.place && st.place[h.value] == InHand)
  }

  ghost predicate Inv(st: Stack, h: Option<Rid>) {
    Core(st) && QueueOk(st) && Tokens(st) && HandIs(st, h)
  }

  lemma EndsQueue(st: Stack, t: Stack)
    requires Ends(st, t) && QueueOk(st)
    ensures QueueOk(t)
  {
    forall m | 0 <= m < |t.queue| ensures Waits(t, t.queue[m]) {
      assert Waits(st, st.queue[m]);
      assert PlaceEnds(st.place[st.queue[m].rid], t.place[st.queue[m].rid]);
    }
    forall rid | rid in t.place && t.place[rid] == Queued ensures exists m :: 0 <= m < |t.queue| && t.queue[m].rid == rid {
      assert PlaceEnds(st.place[rid], t.place[rid]);
    }
  }

  lemma EndsHand(st: Stack, t: Stack, h: Option<Rid>)
    requires Ends(st, t) && HandIs(st, h)
    ensures HandIs(t, h)
  {
    forall rid | rid in t.place && t.place[rid].InHand? ensures h == Some(rid) {
      assert PlaceEnds(st.place[rid], t.place[rid]);
    }
    if h.Some? { assert PlaceEnds(st.place[h.value], t.place[h.value]); }
  }

  lemma EndsInv(st: Stack, t: Stack, h: Option<Rid>)
    requires Inv(st, h) && Core(t) && Ends(st, t)
    ensures Inv(t, h)
  {
    EndsQueue(st, t);
    EndsHand(st, t, h);
    forall i | 0 <= i < |t.tab| && t.tab[i].sock.Some? ensures Belongs(t.apps, t.tab[i].sock.value.apptok) {
      assert SlotEnds(st.tab[i], t.tab[i]);
    }
  }

  lemma AnswerInv(st: Stack, rid: Rid, retcode: int, errno: int, items: seq<Item>)
    requires Inv(st, Some(rid))
    ensures Inv(Complete(st, rid, retcode, errno, items), None)
  {
    var t := Complete(st, rid, retcode, errno, items);
    CompleteKeeps(st, rid, retcode, errno, items);
    var u := st.(place := t.place);
    assert QueueOk(u) by {
      forall m | 0 <= m < |st.queue| ensures Waits(u, st.queue[m]) { assert Waits(st, st.queue[m]); }
    }
    EndsQueue(u, t);
    forall i | 0 <= i < |t.tab| && t.tab[i].sock.Some? ensures Belongs(t.apps, t.tab[i].sock.value.apptok) {
      assert SlotEnds(u.tab[i], t.tab[i]);
    }
  }

  // ---- reclaiming an application -------------------------------------------------------------------------------

  /** Freeing an application slot touches neither the sockets nor the requests. */
  lemma AppsCore(a: Stack, t: Stack)
    requires Core(a) && t == a.(apps := t.apps) && |t.apps| == APP_MAX
    requires forall k :: 0 <= k < |t.apps| ==> 0 < t.apps[k].gen <= GEN_WRAP
    ensures Core(t)
  {
    forall j, k, r | Holds(t.tab, j, k, r) ensures Pended(t, j, k, r) { assert Pended(a, j, k, r); }
    forall r ensures Found(t, r) { assert Found(a, r); }
  }

  lemma ReclaimCore(st: Stack, i: nat)
    requires Core(st) && i < |st.apps|
    ensures Core(Reclaim(st, i))
  {
    var a := TermFrom(st, AppToken(st.apps, i), 0);
    TermFromKeeps(st, AppToken(st.apps, i), 0);
    AppsCore(a, Reclaim(st, i));
  }

  lemma AppsQueue(a: Stack, t: Stack)
    requires QueueOk(a) && t == a.(apps := t.apps)
    ensures QueueOk(t)
  {
    forall m | 0 <= m < |t.queue| ensures Waits(t, t.queue[m]) { assert Waits(a, a.queue[m]); }
  }

  /** TERMAPI's and the sweep's teardown: no socket of the application survives, and its slot is free. */
  lemma ReclaimInv(st: Stack, i: nat, h: Option<Rid>)
    requires Inv(st, h) && i < |st.apps| && st.apps[i].inuse
    ensures var t := Reclaim(st, i); Inv(t, h) && t.apps == AppFree(st.apps, i) && SelsLeave(st, t)
    ensures var t := Reclaim(st, i);
      forall m :: 0 <= m < |t.tab| && t.tab[m].sock.Some? ==> t.tab[m].sock.value.apptok != AppToken(st.apps, i)
  {
    var token := AppToken(st.apps, i);
    var a := TermFrom(st, token, 0);
    TermFromKeeps(st, token, 0);
    EndsInv(st, a, h);
    var t := Reclaim(st, i);
    assert t == a.(apps := AppFree(st.apps, i));
    AppsCore(a, t);
    AppsQueue(a, t);
    forall m | 0 <= m < |t.tab| && t.tab[m].sock.Some?
      ensures t.tab[m].sock.value.apptok != token && Belongs(t.apps, t.tab[m].sock.value.apptok)
    {
      assert NoneOf(a.tab, token, m) && Belongs(a.apps, a.tab[m].sock.value.apptok);
      FreeToken(st.apps, i, t.tab[m].sock.value.apptok);
    }
  }

  /** What the sweep does to one application slot. */
  ghost predicate Swept(a: App, b: App, classify: (nat, nat) -> Verdict) {
    if a.inuse && Classified(a, classify) == Dead then b == App(false, Bump(a.gen), 0, 0) else b == a
  }

  lemma SweepOneInv(st: Stack, classify: (nat, nat) -> Verdict, i: nat, h: Option<Rid>)
    requires Inv(st, h) && i < APP_MAX
    ensures var t := SweepOne(st, classify, i); Inv(t, h) && |t.apps| == APP_MAX && Swept(st.apps[i], t.apps[i], classify)
    ensures forall m :: 0 <= m < APP_MAX && m != i ==> SweepOne(st, classify, i).apps[m] == st.apps[m]
  {
    if st.apps[i].inuse && Classified(st.apps[i], classify) == Dead {
      ReclaimInv(st, i, h);
    }
  }

  /** The sweep frees exactly the application slots whose client is dead, and leaves every other
      untouched: a live client, one that cannot be judged, one without identity, a free slot. */
  lemma {:induction false} SweepInv(st: Stack, classify: (nat, nat) -> Verdict, i: nat, h: Option<Rid>)
    requires Inv(st, h)
    ensures var t := SweepFrom(st, classify, i); Inv(t, h) && |t.apps| == |st.apps| == APP_MAX
    ensures forall m :: i <= m < APP_MAX ==> Swept(st.apps[m], SweepFrom(st, classify, i).apps[m], classify)
    ensures forall m :: 0 <= m < APP_MAX && m < i ==> SweepFrom(st, classify, i).apps[m] == st.apps[m]
    decreases APP_MAX - i
  {
    if i < APP_MAX {
      SweepOneInv(st, classify, i, h);
      SweepInv(SweepOne(st, classify, i), classify, i + 1, h);
    }
  }

  // ---- creating a socket ---------------------------------------------------------------------------------------

  lemma OpenCore(st: Stack, i: nat, s: Sock)
    requires Core(st) && i < |st.tab| && st.tab[i].sock.None? && s.pends == NO_PENDS
    requires Adopts(st.tab, s.apptok, s.parent)
    ensures Core(st.(tab := st.tab[i := st.tab[i].(sock := Some(s))]))
  {
    var t := st.(tab := st.tab[i := st.tab[i].(sock := Some(s))]);
    forall j, k, r | Holds(t.tab, j, k, r) ensures Pended(t, j, k, r) { assert Holds(st.tab, j, k, r) && Pended(st, j, k, r); }
    forall r ensures Found(t, r) { assert Found(st, r); }
  }

  lemma OpenInv(st: Stack, i: nat, token: nat, parent: Option<nat>, h: Option<Rid>)
    requires Inv(st, h) && i < |st.tab| && st.tab[i].sock.None? && Belongs(st.apps, token)
    requires Adopts(st.tab, token, parent)
    ensures Inv(st.(tab := st.tab[i := st.tab[i].(sock := Some(Sock(token, NO_PENDS, Bits(false, false), parent)))]), h)
  {
    var t := st.(tab := st.tab[i := st.tab[i].(sock := Some(Sock(token, NO_PENDS, Bits(false, false), parent)))]);
    OpenCore(st, i, Sock(token, NO_PENDS, Bits(false, false), parent));
    assert QueueOk(t) by {
      forall m | 0 <= m < |t.queue| ensures Waits(t, t.queue[m]) { assert Waits(st, st.queue[m]); }
    }
    forall m | 0 <= m < |t.tab| && t.tab[m].sock.Some? ensures Belongs(t.apps, t.tab[m].sock.value.apptok) {
      if m != i { assert Belongs(st.apps, st.tab[m].sock.value.apptok); }
    }
  }

  /** A created socket carries its owner's token in a slot that was free; a failed creation leaves
      every other socket as it was. */
  lemma CreateInv(st: Stack, token: nat, attaches: bool, parent: Option<nat>, h: Option<Rid>)
    requires Inv(st, h) && Belongs(st.apps, token)
    requires Adopts(st.tab, token, parent)
    ensures Inv(Create(st, token, attaches, parent).0, h) && |Create(st, token, attaches, parent).0.tab| == |st.tab|
    ensures var (t, i) := Create(st, token, attaches, parent);
      i.Some? ==> i.value < |st.tab| && st.tab[i.value].sock.None? && t.tab[i.value].inc == st.tab[i.value].inc
                  && t.tab[i.value].sock == Some(Sock(token, NO_PENDS, Bits(false, false), parent))
  {
    var i := FreeSlot(st.tab, 0);
    if i < |st.tab| {
      OpenInv(st, i, token, parent, h);
      var a := st.(tab := st.tab[i := st.tab[i].(sock := Some(Sock(token, NO_PENDS, Bits(false, false), parent)))]);
      if !attaches {
        DestroyKeeps(a, i);
        EndsInv(a, Destroy(a, i), h);
      }
    }
  }

  // ---- the handlers ----------------------------------------------------------------------------------------------

  lemma AdmitInv(st: Stack, i: nat, ascb: nat, asid: nat, h: Option<Rid>)
    requires Inv(st, h) && i < |st.apps| && !st.apps[i].inuse
    ensures Inv(st.(apps := st.apps[i := App(true, st.apps[i].gen, ascb, asid)]), h)
  {
    var t := st.(apps := st.apps[i := App(true, st.apps[i].gen, ascb, asid)]);
    assert Core(t) by {
      forall j, k, r | Holds(t.tab, j, k, r) ensures Pended(t, j, k, r) { assert Pended(st, j, k, r); }
      forall r ensures Found(t, r) { assert Found(st, r); }
    }
    assert QueueOk(t) by { forall m | 0 <= m < |t.queue| ensures Waits(t, t.queue[m]) { assert Waits(st, st.queue[m]); } }
    forall m | 0 <= m < |t.tab| && t.tab[m].sock.Some? ensures Belongs(t.apps, t.tab[m].sock.value.apptok) {
      assert Belongs(st.apps, st.tab[m].sock.value.apptok);
    }
  }

  lemma InitApiInv(st: Stack, rid: Rid, ascb: nat, asid: nat, classify: (nat, nat) -> Verdict, due: bool)
    requires Inv(st, Some(rid))
    ensures Inv(DoInitApi(st, rid, ascb, asid, classify, due), None)
  {
    var a := if FreeApp(st.apps, 0) == |st.apps| then Sweep(st, classify, due) else st;
    if FreeApp(st.apps, 0) == |st.apps| && due { SweepInv(st, classify, 0, Some(rid)); }
    var i := FreeApp(a.apps, 0);
    if i == |a.apps| {
      AnswerInv(a, rid, RETERR, EMFILE, []);
    } else {
      AdmitInv(a, i, ascb, asid, Some(rid));
      AnswerInv(a.(apps := a.apps[i := App(true, a.apps[i].gen, ascb, asid)]), rid, RETOK, 0, []);
    }
  }

  lemma TermApiInv(st: Stack, rid: Rid, token: nat)
    requires Inv(st, Some(rid))
    ensures Inv(DoTermApi(st, rid, token), None)
  {
    var i := AppIndex(st.apps, token);
    if i.None? {
      AnswerInv(st, rid, RETERR, EINVAL, []);
    } else {
      ReclaimInv(st, i.value, Some(rid));
      AnswerInv(Reclaim(st, i.value), rid, RETOK, 0, []);
    }
  }

  lemma SocketInv(st: Stack, rid: Rid, token: nat, known: bool, attaches: bool)
    requires Inv(st, Some(rid)) && token < WORD
    ensures Inv(DoSocket(st, rid, token, known, attaches), None)
  {
    if AppIndex(st.apps, token).None? {
      AnswerInv(st, rid, RETERR, EINVAL, []);
    } else if !known {
      AnswerInv(st, rid, RETERR, EPROTONOSUPPORT, []);
    } else {
      CreateInv(st, token, attaches, None, Some(rid));
      var (t, i) := Create(st, token, attaches, None);
      if i.None? || i.value >= |t.tab| {
        AnswerInv(t, rid, RETERR, EMFILE, []);
      } else {
        AnswerInv(t, rid, AsInt(Desc(t.tab[i.value].gen, i.value)), 0, []);
      }
    }
  }

  lemma CloseInv(st: Stack, rid: Rid, i: nat, op: CloseResult)
    requires Inv(st, Some(rid)) && i < |st.tab| && st.tab[i].sock.Some?
    ensures Inv(DoClose(st, rid, i, op), None)
  {
    if op.NotOwned? {
      DestroyKeeps(st, i);
      EndsInv(st, Destroy(st, i), Some(rid));
      AnswerInv(Destroy(st, i), rid, RETOK, 0, []);
    } else {
      AnswerInv(st, rid, RETOK, 0, []);
      var a := Complete(st, rid, RETOK, 0, []);
      if op.destroys {
        DestroyKeeps(a, i);
        EndsInv(a, Destroy(a, i), None);
      }
    }
  }

  /** Parking takes the request out of hand into a pend slot nobody held. */
  lemma ParkInv(st: Stack, rid: Rid, i: nat, k: Kind)
    requires Inv(st, Some(rid)) && i < |st.tab| && st.tab[i].sock.Some? && GetPend(st.tab[i].sock.value.pends, k).None?
    requires SockDesc(st, rid) == Desc(st.tab[i].gen, i)
    ensures Inv(Park(st, rid, i, k).0, None)
  {
    var t := Park(st, rid, i, k).0;
    forall j, l, r | Holds(t.tab, j, l, r) ensures Pended(t, j, l, r) {
      if !(j == i && l == k) {
        assert Holds(st.tab, j, l, r) by { match l case Recv => case Accept => case Connect => case Send => }
        assert Pended(st, j, l, r);
      } else {
        assert r == rid by { match l case Recv => case Accept => case Connect => case Send => }
      }
    }
    forall r ensures Found(t, r) {
      assert Found(st, r);
      if r in st.place && st.place[r].OnSock? && r != rid {
        var j, l := st.place[r].i, st.place[r].k;
        assert !(j == i && l == k);
        assert Holds(t.tab, j, l, r) by { match l case Recv => case Accept => case Connect => case Send => }
      }
      if r == rid { match k case Recv => case Accept => case Connect => case Send => }
    }
    assert QueueOk(t) by {
      forall m | 0 <= m < |t.queue| ensures Waits(t, t.queue[m]) { assert Waits(st, st.queue[m]); }
    }
    forall m | 0 <= m < |t.tab| && t.tab[m].sock.Some? ensures Belongs(t.apps, t.tab[m].sock.value.apptok) {
      assert Belongs(st.apps, st.tab[m].sock.value.apptok);
    }
  }

  lemma DelegateInv(st: Stack, rid: Rid, i: nat, op: OpResult)
    requires Inv(st, Some(rid)) && i < |st.tab| && st.tab[i].sock.Some? && SockDesc(st, rid) == Desc(st.tab[i].gen, i)
    ensures Inv(DoDelegate(st, rid, i, op), None)
  {
    match op {
      case Completes(retcode, errno) => AnswerInv(st, rid, retcode, errno, []);
      case Refuses(err) => AnswerInv(st, rid, RETERR, err, []);
      case Parks(k) =>
        if GetPend(st.tab[i].sock.value.pends, k).Some? { AnswerInv(st, rid, RETERR, EINVAL, []); } else { ParkInv(st, rid, i, k); }
    }
  }

  /** SELECT gives up its descriptor, so completing it can touch no pend slot. */
  lemma UndescInv(st: Stack, rid: Rid)
    requires Inv(st, Some(rid))
    ensures Inv(st.(sockdesc := st.sockdesc[rid := 0]), Some(rid))
  {
    var t := st.(sockdesc := st.sockdesc[rid := 0]);
    forall j, k, r | Holds(t.tab, j, k, r) ensures Pended(t, j, k, r) { assert Pended(st, j, k, r); }
    forall r ensures Found(t, r) { assert Found(st, r); }
    forall m | 0 <= m < |t.queue| ensures Waits(t, t.queue[m]) { assert Waits(st, st.queue[m]); }
  }

  lemma SelectParkInv(st: Stack, rid: Rid, n: nat, cb: Sel)
    requires Inv(st, Some(rid)) && n < |st.sels| && st.sels[n].None? && cb.rid == rid && SockDesc(st, rid) == 0
    ensures Inv(st.(sels := st.sels[n := Some(cb)], place := st.place[rid := InSel(n)]), None)
  {
    var t := st.(sels := st.sels[n := Some(cb)], place := st.place[rid := InSel(n)]);
    forall j, k, r | Holds(t.tab, j, k, r) ensures Pended(t, j, k, r) { assert Pended(st, j, k, r); }
    forall r ensures Found(t, r) { assert Found(st, r); }
    assert QueueOk(t) by { forall m | 0 <= m < |t.queue| ensures Waits(t, t.queue[m]) { assert Waits(st, st.queue[m]); } }
    forall m | 0 <= m < |t.tab| && t.tab[m].sock.Some? ensures Belongs(t.apps, t.tab[m].sock.value.apptok) {
      assert Belongs(st.apps, st.tab[m].sock.value.apptok);
    }
  }

  lemma SelectInv(st: Stack, rid: Rid, items: seq<Item>, whole: bool, timed: bool, zero: bool, ascb: nat, asid: nat)
    requires Inv(st, Some(rid))
    ensures Inv(DoSelect(st, rid, items, whole, timed, zero, ascb, asid), None)
  {
    UndescInv(st, rid);
    var a := st.(sockdesc := st.sockdesc[rid := 0]);
    var scanned := Scanned(st.tab, st.apps, items, ascb, asid);
    var n := FreeSel(st.sels, 0);
    if !whole { AnswerInv(a, rid, RETERR, EINVAL, []); }
    else if CountReady(scanned) > 0 { AnswerInv(a, rid, CountReady(scanned), 0, scanned); }
    else if timed && zero { AnswerInv(a, rid, 0, 0, scanned); }
    else if n == |st.sels| { AnswerInv(a, rid, RETERR, EMFILE, scanned); }
    else { SelectParkInv(a, rid, n, Sel(rid, scanned, ascb, asid, timed)); }
  }

  lemma LookupDesc(tab: seq<SockSlot>, desc: nat)
    requires desc < WORD && Lookup(tab, desc).Some?
    ensures desc == Desc(tab[Lookup(tab, desc).value].gen, Lookup(tab, desc).value)
  {
  }

  lemma OnSocketInv(st: Stack, q: Request, op: SockOp, ascb: nat, asid: nat)
    requires Inv(st, Some(q.rid)) && q.desc < WORD && SockDesc(st, q.rid) == q.desc
    ensures var i := SockOwned(st.tab, st.apps, q.desc, ascb, asid);
      Inv(if i.None? then Complete(st, q.rid, RETERR, EBADF, []) else DoSockOp(st, q.rid, i.value, op), None)
  {
    var i := SockOwned(st.tab, st.apps, q.desc, ascb, asid);
    if i.None? {
      AnswerInv(st, q.rid, RETERR, EBADF, []);
    } else {
      LookupDesc(st.tab, q.desc);
      match op {
        case Local(retcode, errno) => AnswerInv(st, q.rid, retcode, errno, []);
        case Close(close) => CloseInv(st, q.rid, i.value, close);
        case Delegate(result) => DelegateInv(st, q.rid, i.value, result);
      }
    }
  }

  /** Whatever the verb, the caller and the protocol's answer, dispatching a request leaves it completed
      once or parked in one place, and nothing else out of place. */
  lemma HandleInv(st: Stack, q: Request, ascb: nat, asid: nat, classify: (nat, nat) -> Verdict, due: bool)
    requires Inv(st, Some(q.rid)) && q.desc < WORD && q.apptok < WORD && SockDesc(st, q.rid) == q.desc
    ensures Inv(Handle(st, q, ascb, asid, classify, due), None)
  {
    var token := if q.verb.InitApi? then q.apptok else Authenticate(st.apps, q.apptok, ascb, asid);
    match q.verb {
      case InitApi => InitApiInv(st, q.rid, ascb, asid, classify, due);
      case TermApi => TermApiInv(st, q.rid, token);
      case Socket(known, attaches) => SocketInv(st, q.rid, token, known, attaches);
      case Select(items, whole, timed, zero) => SelectInv(st, q.rid, items, whole, timed, zero, ascb, asid);
      case Unknown => AnswerInv(st, q.rid, RETERR, EINVAL, []);
      case OnSocket(op) => OnSocketInv(st, q, op, ascb, asid);
    }
  }

  // ---- steps and runs ------------------------------------------------------------------------------------------------

  lemma SubmitKeeps(st: Stack, q: Request)
    requires Inv(st, None) && Enabled(st, Submit(q))
    ensures Inv(Step(st, Submit(q)), None)
  {
    var t := Step(st, Submit(q));
    forall j, k, r | Holds(t.tab, j, k, r) ensures Pended(t, j, k, r) { assert Pended(st, j, k, r); }
    forall r ensures Found(t, r) { assert Found(st, r); }
    assert QueueOk(t) by {
      forall m | 0 <= m < |t.queue| ensures Waits(t, t.queue[m]) { if m < |st.queue| { assert Waits(st, st.queue[m]); } }
      forall m, n | 0 <= m < n < |t.queue| ensures t.queue[m].rid != t.queue[n].rid { assert Waits(st, st.queue[m]); }
      forall rid | rid in t.place && t.place[rid] == Queued ensures exists m :: 0 <= m < |t.queue| && t.queue[m].rid == rid {
        if rid == q.rid { assert t.queue[|st.queue|].rid == rid; }
        else {
          var m :| 0 <= m < |st.queue| && st.queue[m].rid == rid;
          assert t.queue[m].rid == rid;
        }
      }
    }
  }

  lemma TakeKeeps(st: Stack)
    requires Inv(st, None) && st.queue != []
    ensures var q := st.queue[0];
      Inv(st.(queue := st.queue[1..], place := st.place[q.rid := InHand]), Some(q.rid))
  {
    var q := st.queue[0];
    var t := st.(queue := st.queue[1..], place := st.place[q.rid := InHand]);
    assert Waits(st, q);
    forall j, k, r | Holds(t.tab, j, k, r) ensures Pended(t, j, k, r) { assert Pended(st, j, k, r); }
    forall r ensures Found(t, r) { assert Found(st, r); }
    assert QueueOk(t) by {
      forall m | 0 <= m < |t.queue| ensures Waits(t, t.queue[m]) { assert Waits(st, st.queue[m + 1]); }
      forall rid | rid in t.place && t.place[rid] == Queued ensures exists m :: 0 <= m < |t.queue| && t.queue[m].rid == rid {
        var m :| 0 <= m < |st.queue| && st.queue[m].rid == rid;
        assert t.queue[m - 1].rid == rid;
      }
    }
  }

  /** A change of one socket that leaves its pends, its owner and its children's view of it alone. */
  lemma TouchKeeps(st: Stack, i: nat, s: Sock)
    requires Inv(st, None) && i < |st.tab| && st.tab[i].sock.Some? && s.pends == st.tab[i].sock.value.pends && s.apptok == st.tab[i].sock.value.apptok
    requires s.parent == st.tab[i].sock.value.parent || s.parent.None?
    ensures Inv(st.(tab := WithSock(st.tab, i, s)), None)
  {
    var t := st.(tab := WithSock(st.tab, i, s));
    forall j, k, r | Holds(t.tab, j, k, r) ensures Pended(t, j, k, r) { assert Holds(st.tab, j, k, r) && Pended(st, j, k, r); }
    forall r ensures Found(t, r) { assert Found(st, r); }
    assert QueueOk(t) by { forall m | 0 <= m < |t.queue| ensures Waits(t, t.queue[m]) { assert Waits(st, st.queue[m]); } }
    forall m | 0 <= m < |t.tab| && t.tab[m].sock.Some? ensures Belongs(t.apps, t.tab[m].sock.value.apptok) {
      assert Belongs(st.apps, st.tab[m].sock.value.apptok);
    }
  }

  /** A poke leaves every socket's identity and readiness as it was. */
  ghost predicate SamePoll(st: Stack, t: Stack) {
    && t.apps == st.apps && |t.tab| == |st.tab|
    && forall i :: 0 <= i < |st.tab| ==>
         t.tab[i].gen == st.tab[i].gen && t.tab[i].sock.Some? == st.tab[i].sock.Some?
         && (st.tab[i].sock.Some? ==> SameButPends(st.tab[i].sock.value, t.tab[i].sock.value))
  }

  lemma SamePollBits(st: Stack, t: Stack, items: seq<Item>, ascb: nat, asid: nat)
    requires SamePoll(st, t)
    ensures Scanned(t.tab, t.apps, items, ascb, asid) == Scanned(st.tab, st.apps, items, ascb, asid)
  {
    forall j | 0 <= j < |items|
      ensures ReadyBits(t.tab, t.apps, items[j], ascb, asid) == ReadyBits(st.tab, st.apps, items[j], ascb, asid)
    {
    }
  }

  lemma RescanPoll(st: Stack, n: nat)
    requires Core(st) && n < |st.sels|
    ensures SamePoll(st, Rescan(st, n))
  {
  }

  /** A parked SELECT in slot `n` has nothing ready. */
  ghost predicate Idle(st: Stack, n: nat) {
    n < |st.sels| && st.sels[n].Some? ==>
      CountReady(Scanned(st.tab, st.apps, st.sels[n].value.items, st.sels[n].value.ascb, st.sels[n].value.asid)) == 0
  }

  lemma {:induction false} RescanFromKeeps(st: Stack, n: nat)
    requires Core(st)
    ensures var t := RescanFrom(st, n); Core(t) && Ends(st, t) && SamePoll(st, t)
    ensures forall m :: n <= m < |st.sels| ==> Idle(RescanFrom(st, n), m)
    ensures forall m :: 0 <= m < n && m < |st.sels| ==> RescanFrom(st, n).sels[m] == st.sels[m]
    decreases |st.sels| - n
  {
    if n < |st.sels| {
      var a := Rescan(st, n);
      RescanKeeps(st, n);
      RescanPoll(st, n);
      RescanFromKeeps(a, n + 1);
      var t := RescanFrom(st, n);
      EndsTrans(st, a, t);
      assert Idle(t, n) by {
        if a.sels[n].Some? {
          var cb := a.sels[n].value;
          SamePollBits(st, a, cb.items, cb.ascb, cb.asid);
          SamePollBits(a, t, cb.items, cb.ascb, cb.asid);
        }
      }
    }
  }

  lemma DispatchKeeps(st: Stack, ascb: nat, asid: nat, classify: (nat, nat) -> Verdict, due: bool)
    requires Inv(st, None) && st.queue != []
    ensures Inv(Step(st, Dispatch(ascb, asid, classify, due)), None)
  {
    var q := st.queue[0];
    assert Waits(st, q);
    TakeKeeps(st);
    HandleInv(st.(queue := st.queue[1..], place := st.place[q.rid := InHand]), q, ascb, asid, classify, due);
  }

  lemma FinishKeeps(st: Stack, i: nat, k: Kind, retcode: int, errno: int)
    requires Inv(st, None) && Enabled(st, Finish(i, k, retcode, errno))
    ensures Inv(Step(st, Finish(i, k, retcode, errno)), None)
  {
    var rid := GetPend(st.tab[i].sock.value.pends, k).value;
    assert Holds(st.tab, i, k, rid) && Pended(st, i, k, rid);
    CompleteKeeps(st, rid, retcode, errno, []);
    EndsInv(st, Step(st, Finish(i, k, retcode, errno)), None);
  }

  /** Every action keeps the invariant. */
  lemma StepKeeps(st: Stack, a: Action)
    requires Inv(st, None) && Enabled(st, a)
    ensures Inv(Step(st, a), None)
  {
    match a {
      case Submit(q) => SubmitKeeps(st, q);
      case Dispatch(ascb, asid, classify, due) => DispatchKeeps(st, ascb, asid, classify, due);
      case SweepNow(classify, due) => if due { SweepInv(st, classify, 0, None); }
      case Finish(i, k, retcode, errno) => FinishKeeps(st, i, k, retcode, errno);
      case Becomes(i, ready) => TouchKeeps(st, i, st.tab[i].sock.value.(ready := ready));
      case Accepted(j) => TouchKeeps(st, j, st.tab[j].sock.value.(parent := None));
      case Notify => RescanFromKeeps(st, 0); EndsInv(st, Poke(st), None);
      case Reset(i) => DestroyKeeps(st, i); EndsInv(st, Destroy(st, i), None);
      case Timeout(n) =>
        SelFinishKeeps(st, n, 0, 0, Unready(st.sels[n].value.items));
        EndsInv(st, Step(st, a), None);
      case PassiveOpen(i, attaches) =>
        assert Belongs(st.apps, st.tab[i].sock.value.apptok);
        CreateInv(st, st.tab[i].sock.value.apptok, attaches, Some(i), None);
    }
  }
}
