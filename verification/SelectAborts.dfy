/** Why a parked SELECT is aborted: a socket it names is torn down in that very step. */
module SelectAborts {
  import opened Options
  import opened Sockets
  import opened SocketSafety

  /** The socket in slot `i` is torn down on the way from `st` to `t`. */
  predicate Gone(st: Stack, t: Stack, i: nat) {
    i < |st.tab| == |t.tab| && t.tab[i].sock.None? && t.tab[i].inc == st.tab[i].inc + 1
  }

  /** One of these items names a socket that is torn down. */
  ghost predicate Severed(st: Stack, t: Stack, items: seq<Item>) {
    exists i: nat :: Gone(st, t, i) && HasDesc(items, Desc(st.tab[i].gen, i))
  }

  /** Every SELECT that leaves its block is severed. */
  ghost predicate Cuts(st: Stack, t: Stack) {
    |t.sels| == |st.sels| && forall n :: 0 <= n < |st.sels| && st.sels[n].Some? && t.sels[n].None? ==> Severed(st, t, st.sels[n].value.items)
  }

  /** No socket comes, and none that goes comes back. */
  ghost predicate TabEnds(st: Stack, t: Stack) {
    |t.tab| == |st.tab| && forall i :: 0 <= i < |st.tab| ==> SlotEnds(st.tab[i], t.tab[i])
  }

  /** Teardown: sockets and SELECTs only go, and each SELECT for a reason. */
  ghost predicate Tears(st: Stack, t: Stack) {
    TabEnds(st, t) && SelsLeave(st, t) && Cuts(st, t)
  }

  lemma GoneWide(a: Stack, b: Stack, c: Stack, d: Stack, i: nat)
    requires TabEnds(a, b) && TabEnds(b, c) && TabEnds(c, d) && Gone(b, c, i)
    ensures Gone(a, d, i) && a.tab[i].gen == b.tab[i].gen
  {
    assert SlotEnds(a.tab[i], b.tab[i]) && SlotEnds(b.tab[i], c.tab[i]) && SlotEnds(c.tab[i], d.tab[i]);
  }

  lemma SeveredWide(a: Stack, b: Stack, c: Stack, d: Stack, items: seq<Item>)
    requires TabEnds(a, b) && TabEnds(b, c) && TabEnds(c, d) && Severed(b, c, items)
    ensures Severed(a, d, items)
  {
    var i: nat :| Gone(b, c, i) && HasDesc(items, Desc(b.tab[i].gen, i));
    GoneWide(a, b, c, d, i);
  }

  lemma TabTrans(a: Stack, b: Stack, c: Stack)
    requires TabEnds(a, b) && TabEnds(b, c)
    ensures TabEnds(a, c)
  {
    forall i | 0 <= i < |a.tab| ensures SlotEnds(a.tab[i], c.tab[i]) {
      assert SlotEnds(a.tab[i], b.tab[i]) && SlotEnds(b.tab[i], c.tab[i]);
    }
  }

  lemma TabSame(a: Stack)
    ensures TabEnds(a, a)
  {
  }

  lemma TearsTrans(a: Stack, b: Stack, c: Stack)
    requires Tears(a, b) && Tears(b, c)
    ensures Tears(a, c)
  {
    TabTrans(a, b, c);
    TabSame(a);
    TabSame(c);
    forall n | 0 <= n < |a.sels| && a.sels[n].Some? && c.sels[n].None? ensures Severed(a, c, a.sels[n].value.items) {
      if b.sels[n].None? { SeveredWide(a, a, b, c, a.sels[n].value.items); }
      else { SeveredWide(a, b, c, c, a.sels[n].value.items); }
    }
  }

  /** Completing requests takes no socket away. */
  ghost predicate LivesOn(st: Stack, t: Stack) {
    TabEnds(st, t) && forall i :: 0 <= i < |st.tab| ==> t.tab[i].inc == st.tab[i].inc && t.tab[i].sock.Some? == st.tab[i].sock.Some?
  }

  lemma CompleteTears(st: Stack, rid: Rid, retcode: int, errno: int, items: seq<Item>)
    ensures var t := Complete(st, rid, retcode, errno, items); Tears(st, t) && LivesOn(st, t)
  {
  }

  // ---- teardown --------------------------------------------------------------------------------------------

  lemma AbortTears(st: Stack, n: nat, desc: nat)
    requires n < |st.sels|
    ensures var t := Abort(st, n, desc); LivesOn(st, t) && SelsLeave(st, t)
    ensures forall m :: 0 <= m < |st.sels| && st.sels[m].Some? && Abort(st, n, desc).sels[m].None? ==> HasDesc(st.sels[m].value.items, desc)
  {
  }

  lemma {:induction false} AbortFromTears(st: Stack, n: nat, desc: nat)
    ensures var t := AbortFrom(st, n, desc); LivesOn(st, t) && SelsLeave(st, t)
    ensures forall m :: 0 <= m < |st.sels| && st.sels[m].Some? && AbortFrom(st, n, desc).sels[m].None? ==> HasDesc(st.sels[m].value.items, desc)
    decreases |st.sels| - n
  {
    if n < |st.sels| {
      AbortTears(st, n, desc);
      AbortFromTears(Abort(st, n, desc), n + 1, desc);
      TabTrans(st, Abort(st, n, desc), AbortFrom(st, n, desc));
    } else {
      TabSame(st);
    }
  }

  lemma AbortPendTears(st: Stack, i: nat, k: Kind)
    ensures var t := AbortPend(st, i, k); Tears(st, t) && LivesOn(st, t) && t.sels == st.sels
  {
    TabSame(st);
    if i < |st.tab| && st.tab[i].sock.Some? && GetPend(st.tab[i].sock.value.pends, k).Some? {
      CompleteTears(st, GetPend(st.tab[i].sock.value.pends, k).value, RETERR, ECONNABORTED, []);
    }
  }

  lemma AbortPendsTears(st: Stack, i: nat)
    ensures var t := AbortPends(st, i); Tears(st, t) && LivesOn(st, t) && t.sels == st.sels
  {
    var a := AbortPend(st, i, Recv);
    var b := AbortPend(a, i, Accept);
    var c := AbortPend(b, i, Connect);
    AbortPendTears(st, i, Recv);
    AbortPendTears(a, i, Accept);
    AbortPendTears(b, i, Connect);
    AbortPendTears(c, i, Send);
    TearsTrans(st, a, b);
    TearsTrans(st, b, c);
    TearsTrans(st, c, AbortPends(st, i));
  }

  /** The end of every teardown: SELECTs that named slot `i` have left on the way to `a`, others are cut on
      the way to `c`, and the slot is vacated. */
  lemma VacateTears(st: Stack, a: Stack, c: Stack, i: nat)
    requires i < |st.tab| && TabEnds(st, a) && SelsLeave(st, a) && Tears(a, c) && st.tab[i].sock.Some? && c.tab[i].sock.Some?
    requires forall m :: 0 <= m < |st.sels| && st.sels[m].Some? && a.sels[m].None? ==> HasDesc(st.sels[m].value.items, Desc(st.tab[i].gen, i))
    ensures Tears(st, Vacate(c, i))
  {
    var t := Vacate(c, i);
    assert TabEnds(c, t);
    TabTrans(st, a, c);
    TabTrans(st, c, t);
    assert SlotEnds(st.tab[i], c.tab[i]);
    assert Gone(st, t, i);
    forall n | 0 <= n < |st.sels| && st.sels[n].Some? && t.sels[n].None? ensures Severed(st, t, st.sels[n].value.items) {
      if a.sels[n].Some? { SeveredWide(st, a, c, t, st.sels[n].value.items); }
    }
  }

  lemma LeafTears(st: Stack, i: nat)
    requires i < |st.tab| && st.tab[i].sock.Some?
    ensures Tears(st, DestroyLeaf(st, i))
  {
    var desc := Desc(st.tab[i].gen, i);
    var a := AbortFrom(st, 0, desc);
    AbortFromTears(st, 0, desc);
    AbortPendsTears(a, i);
    var c := AbortPends(a, i);
    VacateTears(st, a, c, i);
  }

  lemma KidTears(st: Stack, i: nat, j: nat)
    ensures Tears(st, DestroyKid(st, i, j))
  {
    TabSame(st);
    if ChildOf(st.tab, j, i) { LeafTears(st, j); }
  }

  lemma {:induction false} KidsTears(st: Stack, i: nat, j: nat)
    ensures Tears(st, DestroyKids(st, i, j))
    decreases SOC_MAX - j
  {
    TabSame(st);
    if j < SOC_MAX {
      var a := DestroyKid(st, i, j);
      KidTears(st, i, j);
      KidsTears(a, i, j + 1);
      TearsTrans(st, a, DestroyKids(st, i, j));
    }
  }

  lemma DestroyTears(st: Stack, i: nat)
    requires Core(st) && i < |st.tab| && st.tab[i].sock.Some?
    ensures Tears(st, Destroy(st, i))
  {
    var desc := Desc(st.tab[i].gen, i);
    var a := AbortFrom(st, 0, desc);
    var b := DestroyKids(a, i, 0);
    AbortFromTears(st, 0, desc);
    KidsTears(a, i, 0);
    AbortPendsTears(b, i);
    var c := AbortPends(b, i);
    TearsTrans(a, b, c);
    DrainedLives(st, i);
    VacateTears(st, a, c, i);
  }

  lemma DrainedLives(st: Stack, i: nat)
    requires Core(st) && i < |st.tab| && st.tab[i].sock.Some?
    ensures i < |Drained(st, i).tab| && Drained(st, i).tab[i].sock.Some?
  {
    DrainedKeeps(st, i);
    assert SlotEnds(st.tab[i], Drained(st, i).tab[i]);
  }

  lemma TermOneTears(st: Stack, token: nat, i: nat)
    requires Core(st)
    ensures Tears(st, TermOne(st, token, i)) && Core(TermOne(st, token, i))
  {
    TabSame(st);
    TermOneKeeps(st, token, i);
    if i < |st.tab| && st.tab[i].sock.Some? && st.tab[i].sock.value.apptok == token { DestroyTears(st, i); }
  }

  lemma {:induction false} TermFromTears(st: Stack, token: nat, i: nat)
    requires Core(st)
    ensures Tears(st, TermFrom(st, token, i))
    decreases SOC_MAX - i
  {
    TabSame(st);
    if i < SOC_MAX {
      var a := TermOne(st, token, i);
      TermOneTears(st, token, i);
      TermFromTears(a, token, i + 1);
      TermSplits(st, token, i);
      TearsTrans(st, a, TermFrom(a, token, i + 1));
    }
  }

  lemma ReclaimTears(st: Stack, i: nat)
    requires Core(st) && i < |st.apps|
    ensures Tears(st, Reclaim(st, i))
  {
    var a := TermFrom(st, AppToken(st.apps, i), 0);
    TermFromTears(st, AppToken(st.apps, i), 0);
    AppsTears(st, a, Reclaim(st, i));
  }

  /** The applications have no part in it. */
  lemma AppsTears(st: Stack, a: Stack, t: Stack)
    requires Tears(st, a) && t == a.(apps := t.apps)
    ensures Tears(st, t)
  {
    TabSame(st);
    forall n | 0 <= n < |st.sels| && st.sels[n].Some? && t.sels[n].None? ensures Severed(st, t, st.sels[n].value.items) {
      SeveredWide(st, st, a, t, st.sels[n].value.items);
    }
  }

  lemma SweepOneTears(st: Stack, classify: (nat, nat) -> Verdict, i: nat)
    requires Core(st)
    ensures Tears(st, SweepOne(st, classify, i)) && Core(SweepOne(st, classify, i))
  {
    TabSame(st);
    if i < |st.apps| && st.apps[i].inuse && Classified(st.apps[i], classify) == Dead {
      ReclaimTears(st, i);
      ReclaimCore(st, i);
    }
  }

  lemma {:induction false} SweepTears(st: Stack, classify: (nat, nat) -> Verdict, i: nat)
    requires Core(st)
    ensures Tears(st, SweepFrom(st, classify, i))
    decreases APP_MAX - i
  {
    TabSame(st);
    if i < APP_MAX {
      var a := SweepOne(st, classify, i);
      SweepOneTears(st, classify, i);
      SweepTears(a, classify, i + 1);
      SweepSplits(st, classify, i);
      TearsTrans(st, a, SweepFrom(a, classify, i + 1));
    } else {
      SweepEnds(st, classify, i);
    }
  }

  // ---- creating, and the verbs -------------------------------------------------------------------------------

  /** More work that cuts nothing further, behind work that has. */
  lemma CutsThen(st: Stack, a: Stack, t: Stack)
    requires Cuts(st, a) && Tears(a, t) && SelsSame(a, t) && |a.tab| == |st.tab|
    ensures Cuts(st, t)
  {
    forall n | 0 <= n < |st.sels| && st.sels[n].Some? && t.sels[n].None? ensures Severed(st, t, st.sels[n].value.items) {
      var items := st.sels[n].value.items;
      var i: nat :| Gone(st, a, i) && HasDesc(items, Desc(st.tab[i].gen, i));
      assert SlotEnds(a.tab[i], t.tab[i]);
      assert Gone(st, t, i);
    }
  }

  predicate SelsSame(st: Stack, t: Stack) { t.sels == st.sels }

  /** Cut behind a change that leaves every slot's generation and every SELECT as they were. */
  lemma CutsBehind(st: Stack, a: Stack, t: Stack)
    requires |a.tab| == |st.tab| && (forall i :: 0 <= i < |st.tab| ==> a.tab[i].gen == st.tab[i].gen && a.tab[i].inc == st.tab[i].inc)
    requires a.sels == st.sels && Cuts(a, t)
    ensures Cuts(st, t)
  {
    forall n | 0 <= n < |st.sels| && st.sels[n].Some? && t.sels[n].None? ensures Severed(st, t, st.sels[n].value.items) {
      var i: nat :| Gone(a, t, i) && HasDesc(st.sels[n].value.items, Desc(a.tab[i].gen, i));
      assert Gone(st, t, i);
    }
  }

  lemma CreateCuts(st: Stack, apptok: nat, attaches: bool, parent: Option<nat>)
    requires Core(st) && Adopts(st.tab, apptok, parent)
    ensures Cuts(st, Create(st, apptok, attaches, parent).0)
  {
    var i := FreeSlot(st.tab, 0);
    if i < |st.tab| && !attaches {
      var a := st.(tab := st.tab[i := st.tab[i].(sock := Some(Sock(apptok, NO_PENDS, Bits(false, false), parent)))]);
      OpenCore(st, i, Sock(apptok, NO_PENDS, Bits(false, false), parent));
      DestroyTears(a, i);
      CutsBehind(st, a, Destroy(a, i));
    }
  }

  lemma AnswerCuts(st: Stack, a: Stack, rid: Rid, retcode: int, errno: int, items: seq<Item>)
    requires Cuts(st, a) && |a.tab| == |st.tab|
    ensures Cuts(st, Complete(a, rid, retcode, errno, items))
  {
    CompleteTears(a, rid, retcode, errno, items);
    CutsThen(st, a, Complete(a, rid, retcode, errno, items));
  }

  lemma NothingCuts(st: Stack)
    ensures Cuts(st, st)
  {
  }

  /** Whatever happens to the applications. */
  lemma AppsCuts(st: Stack, a: Stack, t: Stack)
    requires Cuts(st, a) && t == a.(apps := t.apps)
    ensures Cuts(st, t)
  {
    forall n | 0 <= n < |st.sels| && st.sels[n].Some? && t.sels[n].None? ensures Severed(st, t, st.sels[n].value.items) {
      var i: nat :| Gone(st, a, i) && HasDesc(st.sels[n].value.items, Desc(st.tab[i].gen, i));
      assert Gone(st, t, i);
    }
  }

  lemma InitApiCuts(st: Stack, rid: Rid, ascb: nat, asid: nat, classify: (nat, nat) -> Verdict, due: bool)
    requires Core(st)
    ensures Cuts(st, DoInitApi(st, rid, ascb, asid, classify, due))
  {
    var a := if FreeApp(st.apps, 0) == |st.apps| then Sweep(st, classify, due) else st;
    NothingCuts(st);
    if FreeApp(st.apps, 0) == |st.apps| && due { SweepTears(st, classify, 0); }
    var i := FreeApp(a.apps, 0);
    if i == |a.apps| {
      AnswerCuts(st, a, rid, RETERR, EMFILE, []);
    } else {
      var b := a.(apps := a.apps[i := App(true, a.apps[i].gen, ascb, asid)]);
      AppsCuts(st, a, b);
      AnswerCuts(st, b, rid, RETOK, 0, []);
    }
  }

  lemma TermApiCuts(st: Stack, rid: Rid, token: nat)
    requires Core(st)
    ensures Cuts(st, DoTermApi(st, rid, token))
  {
    var i := AppIndex(st.apps, token);
    NothingCuts(st);
    if i.None? { AnswerCuts(st, st, rid, RETERR, EINVAL, []); }
    else { ReclaimTears(st, i.value); AnswerCuts(st, Reclaim(st, i.value), rid, RETOK, 0, []); }
  }

  lemma SocketCuts(st: Stack, rid: Rid, token: nat, known: bool, attaches: bool)
    requires Core(st)
    ensures Cuts(st, DoSocket(st, rid, token, known, attaches))
  {
    NothingCuts(st);
    if AppIndex(st.apps, token).None? { AnswerCuts(st, st, rid, RETERR, EINVAL, []); }
    else if !known { AnswerCuts(st, st, rid, RETERR, EPROTONOSUPPORT, []); }
    else {
      CreateCuts(st, token, attaches, None);
      CreateTab(st, token, attaches, None);
      var (t, i) := Create(st, token, attaches, None);
      if i.None? || i.value >= |t.tab| { AnswerCuts(st, t, rid, RETERR, EMFILE, []); }
      else { AnswerCuts(st, t, rid, AsInt(Desc(t.tab[i.value].gen, i.value)), 0, []); }
    }
  }

  lemma CreateTab(st: Stack, apptok: nat, attaches: bool, parent: Option<nat>)
    requires Core(st) && Adopts(st.tab, apptok, parent)
    ensures |Create(st, apptok, attaches, parent).0.tab| == |st.tab|
  {
    var i := FreeSlot(st.tab, 0);
    if i < |st.tab| && !attaches {
      OpenCore(st, i, Sock(apptok, NO_PENDS, Bits(false, false), parent));
      DestroyTears(st.(tab := st.tab[i := st.tab[i].(sock := Some(Sock(apptok, NO_PENDS, Bits(false, false), parent)))]), i);
    }
  }

  lemma CloseCuts(st: Stack, rid: Rid, i: nat, op: CloseResult)
    requires Inv(st, Some(rid)) && i < |st.tab| && st.tab[i].sock.Some?
    ensures Cuts(st, DoClose(st, rid, i, op))
  {
    if op.NotOwned? {
      DestroyTears(st, i);
      AnswerCuts(st, Destroy(st, i), rid, RETOK, 0, []);
    } else {
      var a := Complete(st, rid, RETOK, 0, []);
      CompleteTears(st, rid, RETOK, 0, []);
      AnswerInv(st, rid, RETOK, 0, []);
      if op.destroys {
        DestroyTears(a, i);
        TearsTrans(st, a, Destroy(a, i));
      }
    }
  }

  lemma SockOpCuts(st: Stack, rid: Rid, i: nat, op: SockOp)
    requires Inv(st, Some(rid)) && i < |st.tab| && st.tab[i].sock.Some?
    ensures Cuts(st, DoSockOp(st, rid, i, op))
  {
    NothingCuts(st);
    match op {
      case Local(retcode, errno) => AnswerCuts(st, st, rid, retcode, errno, []);
      case Close(close) => CloseCuts(st, rid, i, close);
      case Delegate(Completes(retcode, errno)) => AnswerCuts(st, st, rid, retcode, errno, []);
      case Delegate(Refuses(err)) => AnswerCuts(st, st, rid, RETERR, err, []);
      case Delegate(Parks(k)) => if Park(st, rid, i, k).1 != 0 { AnswerCuts(st, st, rid, RETERR, EINVAL, []); }
    }
  }

  lemma SelectCuts(st: Stack, rid: Rid, items: seq<Item>, whole: bool, timed: bool, zero: bool, ascb: nat, asid: nat)
    ensures Cuts(st, DoSelect(st, rid, items, whole, timed, zero, ascb, asid))
  {
  }

  /** The dispatch of a request takes no other SELECT out of its block but for a socket it tears down. */
  lemma HandleCuts(st: Stack, q: Request, ascb: nat, asid: nat, classify: (nat, nat) -> Verdict, due: bool)
    requires Inv(st, Some(q.rid))
    ensures Cuts(st, Handle(st, q, ascb, asid, classify, due))
  {
    var token := if q.verb.InitApi? then q.apptok else Authenticate(st.apps, q.apptok, ascb, asid);
    NothingCuts(st);
    match q.verb {
      case InitApi => InitApiCuts(st, q.rid, ascb, asid, classify, due);
      case TermApi => TermApiCuts(st, q.rid, token);
      case Socket(known, attaches) => SocketCuts(st, q.rid, token, known, attaches);
      case Select(items, whole, timed, zero) => SelectCuts(st, q.rid, items, whole, timed, zero, ascb, asid);
      case Unknown => AnswerCuts(st, st, q.rid, RETERR, EINVAL, []);
      case OnSocket(op) =>
        var i := SockOwned(st.tab, st.apps, q.desc, ascb, asid);
        if i.None? { AnswerCuts(st, st, q.rid, RETERR, EBADF, []); } else { SockOpCuts(st, q.rid, i.value, op); }
    }
  }
}
