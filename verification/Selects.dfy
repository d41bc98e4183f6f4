/** What every SELECT is answered with, over every run: the readiness of what it asked for in the very state
    it was completed in, nothing on a timeout, or an error with its cause. */
module Selects {
  import opened Options
  import opened Sockets
  import opened SocketSafety
  import opened SocketTheorems
  import opened SelectAborts

  // ---- answers ----------------------------------------------------------------------------------------

  /** The same descriptors and directions asked for, whatever has been found ready. */
  ghost predicate SameAsk(a: seq<Item>, b: seq<Item>) {
    |a| == |b| && forall j :: 0 <= j < |a| ==> a[j].desc == b[j].desc && a[j].want == b[j].want
  }

  lemma ScanAsks(st: Stack, a: seq<Item>, b: seq<Item>, ascb: nat, asid: nat)
    requires SameAsk(a, b)
    ensures Scanned(st.tab, st.apps, a, ascb, asid) == Scanned(st.tab, st.apps, b, ascb, asid)
    ensures SameAsk(a, Scanned(st.tab, st.apps, b, ascb, asid))
  {
  }

  /** A completion that says of `st`, as the caller (`ascb`, `asid`) may see it, exactly which of what was asked
      is ready and how many; or, of a SELECT with a time limit, that nothing is. */
  ghost predicate Truthful(st: Stack, c: Completion, q: Request, ascb: nat, asid: nat)
    requires q.verb.Select?
  {
    || (&& c.retcode > 0 && c.errno == 0
        && c.items == Scanned(st.tab, st.apps, q.verb.items, ascb, asid) && c.retcode == CountReady(c.items))
    || (q.verb.timed && c.retcode == 0 && c.errno == 0 && SameAsk(q.verb.items, c.items) && CountReady(c.items) == 0)
  }

  /** Aborted, and a socket asked about is torn down on the way from `st` to `t`. */
  ghost predicate Excused(st: Stack, t: Stack, c: Completion, q: Request)
    requires q.verb.Select?
  {
    c.retcode == RETERR && c.errno == ECONNABORTED && Severed(st, t, q.verb.items)
  }

  /** Refused by its own dispatch: what was asked is no whole number of items, or every SELECT block is taken. */
  ghost predicate Refused(st: Stack, c: Completion, q: Request)
    requires q.verb.Select?
  {
    && c.retcode == RETERR
    && if q.verb.whole then c.errno == EMFILE && forall n :: 0 <= n < |st.sels| ==> st.sels[n].Some? else c.errno == EINVAL
  }

  // ---- work that completes other requests -----------------------------------------------------------------

  /** A request stays where it is or is completed now. */
  predicate Moved(st: Stack, t: Stack, rid: Rid) {
    rid in st.place ==>
      && rid in t.place
      && (t.place[rid] == st.place[rid]
          || (t.place[rid].Done? && |st.log| <= t.place[rid].at < |t.log| && t.log[t.place[rid].at].rid == rid))
  }

  predicate Aborted(c: Completion) { c.retcode == RETERR && c.errno == ECONNABORTED }

  /** Work that answers at most request `own`, aborts others, and parks no SELECT over another. */
  ghost predicate Serves(st: Stack, t: Stack, own: Option<Rid>) {
    && st.log <= t.log && t.queue == st.queue && |t.sels| == |st.sels|
    && (forall m :: |st.log| <= m < |t.log| ==> Some(t.log[m].rid) == own || Aborted(t.log[m]))
    && (forall n :: 0 <= n < |st.sels| && st.sels[n].Some? ==> t.sels[n] == st.sels[n] || t.sels[n].None?)
    && (forall rid: Rid :: Some(rid) != own ==> Moved(st, t, rid))
  }

  lemma ServesTrans(a: Stack, b: Stack, c: Stack, own: Option<Rid>)
    requires Serves(a, b, own) && Serves(b, c, own) && SelsLeave(b, c)
    ensures Serves(a, c, own)
  {
    forall rid: Rid | Some(rid) != own ensures Moved(a, c, rid) { assert Moved(a, b, rid) && Moved(b, c, rid); }
  }

  /** ... and leaves every SELECT slot as it was or empty. */
  ghost predicate Ending(st: Stack, t: Stack) {
    Serves(st, t, None) && SelsLeave(st, t)
  }

  lemma EndingTrans(a: Stack, b: Stack, c: Stack)
    requires Ending(a, b) && Ending(b, c)
    ensures Ending(a, c)
  {
    ServesTrans(a, b, c, None);
  }

  lemma StaysEnding(st: Stack)
    ensures Ending(st, st)
  {
  }

  lemma AbortEnds(st: Stack, n: nat, desc: nat)
    requires n < |st.sels|
    ensures Ending(st, Abort(st, n, desc))
  {
  }

  lemma {:induction false} AbortFromEnds(st: Stack, n: nat, desc: nat)
    ensures Ending(st, AbortFrom(st, n, desc))
    decreases |st.sels| - n
  {
    if n < |st.sels| {
      AbortEnds(st, n, desc);
      AbortFromEnds(Abort(st, n, desc), n + 1, desc);
      EndingTrans(st, Abort(st, n, desc), AbortFrom(st, n, desc));
    }
  }

  lemma AbortPendEnds(st: Stack, i: nat, k: Kind)
    ensures Ending(st, AbortPend(st, i, k))
  {
  }

  lemma AbortPendsEnds(st: Stack, i: nat)
    ensures Ending(st, AbortPends(st, i))
  {
    var a := AbortPend(st, i, Recv);
    var b := AbortPend(a, i, Accept);
    var c := AbortPend(b, i, Connect);
    AbortPendEnds(st, i, Recv);
    AbortPendEnds(a, i, Accept);
    AbortPendEnds(b, i, Connect);
    AbortPendEnds(c, i, Send);
    EndingTrans(st, a, b);
    EndingTrans(st, b, c);
    EndingTrans(st, c, AbortPends(st, i));
  }

  lemma VacateEnds(st: Stack, i: nat)
    requires i < |st.tab|
    ensures Ending(st, Vacate(st, i))
  {
  }

  lemma DestroyLeafEnds(st: Stack, i: nat)
    ensures Ending(st, DestroyLeaf(st, i))
  {
    if i < |st.tab| && st.tab[i].sock.Some? {
      var a := AbortFrom(st, 0, Desc(st.tab[i].gen, i));
      var b := AbortPends(a, i);
      AbortFromEnds(st, 0, Desc(st.tab[i].gen, i));
      AbortPendsEnds(a, i);
      EndingTrans(st, a, b);
      if i < |b.tab| { VacateEnds(b, i); EndingTrans(st, b, Vacate(b, i)); }
    }
  }

  lemma {:induction false} DestroyKidsEnds(st: Stack, i: nat, j: nat)
    ensures Ending(st, DestroyKids(st, i, j))
    decreases SOC_MAX - j
  {
    if j < SOC_MAX {
      var a := DestroyKid(st, i, j);
      if ChildOf(st.tab, j, i) { DestroyLeafEnds(st, j); }
      DestroyKidsEnds(a, i, j + 1);
      EndingTrans(st, a, DestroyKids(st, i, j));
    }
  }

  lemma DestroyEnds(st: Stack, i: nat)
    ensures Ending(st, Destroy(st, i))
  {
    if i < |st.tab| && st.tab[i].sock.Some? {
      var a := AbortFrom(st, 0, Desc(st.tab[i].gen, i));
      var b := DestroyKids(a, i, 0);
      var c := AbortPends(b, i);
      AbortFromEnds(st, 0, Desc(st.tab[i].gen, i));
      DestroyKidsEnds(a, i, 0);
      AbortPendsEnds(b, i);
      EndingTrans(st, a, b);
      EndingTrans(st, b, c);
      if i < |c.tab| { VacateEnds(c, i); EndingTrans(st, c, Vacate(c, i)); }
    }
  }

  lemma {:induction false} TermFromEnds(st: Stack, token: nat, i: nat)
    ensures Ending(st, TermFrom(st, token, i))
    decreases SOC_MAX - i
  {
    if i < SOC_MAX {
      var a := TermOne(st, token, i);
      if i < |st.tab| && st.tab[i].sock.Some? && st.tab[i].sock.value.apptok == token { DestroyEnds(st, i); }
      TermFromEnds(a, token, i + 1);
      EndingTrans(st, a, TermFrom(st, token, i));
    }
  }

  lemma ReclaimEnds(st: Stack, i: nat)
    requires i < |st.apps|
    ensures Ending(st, Reclaim(st, i))
  {
    TermFromEnds(st, AppToken(st.apps, i), 0);
  }

  lemma SweepOneEnds(st: Stack, classify: (nat, nat) -> Verdict, i: nat)
    ensures Ending(st, SweepOne(st, classify, i))
  {
    if i < |st.apps| && st.apps[i].inuse && Classified(st.apps[i], classify) == Dead { ReclaimEnds(st, i); } else { StaysEnding(st); }
  }

  lemma {:induction false} SweepFromEnds(st: Stack, classify: (nat, nat) -> Verdict, i: nat)
    ensures Ending(st, SweepFrom(st, classify, i))
    decreases APP_MAX - i
  {
    if i < APP_MAX {
      var a := SweepOne(st, classify, i);
      SweepOneEnds(st, classify, i);
      SweepFromEnds(a, classify, i + 1);
      EndingTrans(st, a, SweepFrom(a, classify, i + 1));
    } else {
      StaysEnding(st);
    }
  }

  lemma CreateEnds(st: Stack, apptok: nat, attaches: bool, parent: Option<nat>)
    ensures Ending(st, Create(st, apptok, attaches, parent).0)
  {
    var i := FreeSlot(st.tab, 0);
    if i < |st.tab| {
      var a := st.(tab := st.tab[i := st.tab[i].(sock := Some(Sock(apptok, NO_PENDS, Bits(false, false), parent)))]);
      assert Ending(st, a);
      if !attaches {
        DestroyEnds(a, i);
        EndingTrans(st, a, Destroy(a, i));
      }
    }
  }

  // ---- the dispatch of one request ----------------------------------------------------------------------------

  lemma AnswerServes(st: Stack, t: Stack, rid: Rid, retcode: int, errno: int, items: seq<Item>)
    requires Ending(st, t)
    ensures Serves(st, Complete(t, rid, retcode, errno, items), Some(rid))
  {
    var u := Complete(t, rid, retcode, errno, items);
    forall r: Rid | Some(r) != Some(rid) ensures Moved(st, u, r) { assert Moved(st, t, r); }
  }

  lemma InitApiServes(st: Stack, rid: Rid, ascb: nat, asid: nat, classify: (nat, nat) -> Verdict, due: bool)
    ensures Serves(st, DoInitApi(st, rid, ascb, asid, classify, due), Some(rid))
  {
    var a := if FreeApp(st.apps, 0) == |st.apps| then Sweep(st, classify, due) else st;
    if FreeApp(st.apps, 0) == |st.apps| && due { SweepFromEnds(st, classify, 0); } else { StaysEnding(st); }
    var i := FreeApp(a.apps, 0);
    if i == |a.apps| {
      AnswerServes(st, a, rid, RETERR, EMFILE, []);
    } else {
      AnswerServes(st, a.(apps := a.apps[i := App(true, a.apps[i].gen, ascb, asid)]), rid, RETOK, 0, []);
    }
  }

  lemma TermApiServes(st: Stack, rid: Rid, token: nat)
    ensures Serves(st, DoTermApi(st, rid, token), Some(rid))
  {
    var i := AppIndex(st.apps, token);
    if i.None? { AnswerServes(st, st, rid, RETERR, EINVAL, []); }
    else { ReclaimEnds(st, i.value); AnswerServes(st, Reclaim(st, i.value), rid, RETOK, 0, []); }
  }

  lemma SocketServes(st: Stack, rid: Rid, token: nat, known: bool, attaches: bool)
    ensures Serves(st, DoSocket(st, rid, token, known, attaches), Some(rid))
  {
    if AppIndex(st.apps, token).None? { AnswerServes(st, st, rid, RETERR, EINVAL, []); }
    else if !known { AnswerServes(st, st, rid, RETERR, EPROTONOSUPPORT, []); }
    else {
      CreateEnds(st, token, attaches, None);
      var (t, i) := Create(st, token, attaches, None);
      if i.None? || i.value >= |t.tab| { AnswerServes(st, t, rid, RETERR, EMFILE, []); }
      else { AnswerServes(st, t, rid, AsInt(Desc(t.tab[i.value].gen, i.value)), 0, []); }
    }
  }

  lemma CloseServes(st: Stack, rid: Rid, i: nat, op: CloseResult)
    ensures Serves(st, DoClose(st, rid, i, op), Some(rid))
  {
    if op.NotOwned? {
      DestroyEnds(st, i);
      AnswerServes(st, Destroy(st, i), rid, RETOK, 0, []);
    } else {
      AnswerServes(st, st, rid, RETOK, 0, []);
      var a := Complete(st, rid, RETOK, 0, []);
      if op.destroys {
        DestroyEnds(a, i);
        assert Serves(a, Destroy(a, i), Some(rid)) by {
          forall r: Rid | Some(r) != Some(rid) ensures Moved(a, Destroy(a, i), r) { assert Some(r) != None; }
        }
        ServesTrans(st, a, Destroy(a, i), Some(rid));
      }
    }
  }

  lemma DelegateServes(st: Stack, rid: Rid, i: nat, op: OpResult)
    requires i < |st.tab| && st.tab[i].sock.Some?
    ensures Serves(st, DoDelegate(st, rid, i, op), Some(rid))
  {
    match op {
      case Completes(retcode, errno) => AnswerServes(st, st, rid, retcode, errno, []);
      case Refuses(err) => AnswerServes(st, st, rid, RETERR, err, []);
      case Parks(k) => if Park(st, rid, i, k).1 != 0 { AnswerServes(st, st, rid, RETERR, EINVAL, []); }
    }
  }

  lemma SelectServes(st: Stack, rid: Rid, items: seq<Item>, whole: bool, timed: bool, zero: bool, ascb: nat, asid: nat)
    ensures Serves(st, DoSelect(st, rid, items, whole, timed, zero, ascb, asid), Some(rid))
  {
    var a := st.(sockdesc := st.sockdesc[rid := 0]);
    var scanned := Scanned(st.tab, st.apps, items, ascb, asid);
    if !whole { AnswerServes(st, a, rid, RETERR, EINVAL, []); }
    else if CountReady(scanned) > 0 { AnswerServes(st, a, rid, CountReady(scanned), 0, scanned); }
    else if timed && zero { AnswerServes(st, a, rid, 0, 0, scanned); }
    else if FreeSel(st.sels, 0) == |st.sels| { AnswerServes(st, a, rid, RETERR, EMFILE, scanned); }
  }

  lemma HandleServes(st: Stack, q: Request, ascb: nat, asid: nat, classify: (nat, nat) -> Verdict, due: bool)
    ensures Serves(st, Handle(st, q, ascb, asid, classify, due), Some(q.rid))
  {
    var token := if q.verb.InitApi? then q.apptok else Authenticate(st.apps, q.apptok, ascb, asid);
    match q.verb {
      case InitApi => InitApiServes(st, q.rid, ascb, asid, classify, due);
      case TermApi => TermApiServes(st, q.rid, token);
      case Socket(known, attaches) => SocketServes(st, q.rid, token, known, attaches);
      case Select(items, whole, timed, zero) => SelectServes(st, q.rid, items, whole, timed, zero, ascb, asid);
      case Unknown => AnswerServes(st, st, q.rid, RETERR, EINVAL, []);
      case OnSocket(op) =>
        var i := SockOwned(st.tab, st.apps, q.desc, ascb, asid);
        if i.None? { AnswerServes(st, st, q.rid, RETERR, EBADF, []); }
        else {
          match op {
            case Local(retcode, errno) => AnswerServes(st, st, q.rid, retcode, errno, []);
            case Close(close) => CloseServes(st, q.rid, i.value, close);
            case Delegate(result) => DelegateServes(st, q.rid, i.value, result);
          }
        }
    }
  }

  // ---- a parked SELECT through one step -----------------------------------------------------------------------

  /** The SELECT `q`, of caller (`ascb`, `asid`), parked in block `n` for what it asked. */
  ghost predicate ParkedFor(st: Stack, n: nat, q: Request, ascb: nat, asid: nat)
    requires q.verb.Select?
  {
    && n < |st.sels| && st.sels[n].Some? && st.sels[n].value.rid == q.rid && SameAsk(q.verb.items, st.sels[n].value.items)
    && st.sels[n].value.timed == q.verb.timed && st.sels[n].value.ascb == ascb && st.sels[n].value.asid == asid
  }

  /** Completion `m` is of `q`, was made on the way from `st` to `t`, and tells the truth about `st`. */
  ghost predicate ToldAt(st: Stack, t: Stack, m: nat, q: Request, ascb: nat, asid: nat)
    requires q.verb.Select?
  {
    |st.log| <= m < |t.log| && t.log[m].rid == q.rid && Truthful(st, t.log[m], q, ascb, asid)
  }

  /** ... or it aborts, with cause. */
  ghost predicate AnsweredAt(st: Stack, t: Stack, m: nat, q: Request, ascb: nat, asid: nat)
    requires q.verb.Select?
  {
    ToldAt(st, t, m, q, ascb, asid) || (|st.log| <= m < |t.log| && t.log[m].rid == q.rid && Excused(st, t, t.log[m], q))
  }

  /** Completion `m` refuses `q`, on the way from `st` to `t`. */
  ghost predicate RefusedAt(st: Stack, t: Stack, m: nat, q: Request)
    requires q.verb.Select?
  {
    |st.log| <= m < |t.log| && t.log[m].rid == q.rid && Refused(st, t.log[m], q)
  }

  /** A step leaves a parked SELECT parked for the same, or answers it. */
  ghost predicate Served(st: Stack, t: Stack, n: nat, q: Request, ascb: nat, asid: nat)
    requires q.verb.Select?
  {
    ParkedFor(t, n, q, ascb, asid) || exists m :: AnsweredAt(st, t, m, q, ascb, asid)
  }

  lemma SameAskSevered(st: Stack, t: Stack, a: seq<Item>, b: seq<Item>)
    requires SameAsk(a, b) && Severed(st, t, b)
    ensures Severed(st, t, a)
  {
    var i: nat :| Gone(st, t, i) && HasDesc(b, Desc(st.tab[i].gen, i));
    assert HasDesc(a, Desc(st.tab[i].gen, i));
  }

  lemma ServesParked(st: Stack, t: Stack, own: Option<Rid>, h: Option<Rid>, n: nat, q: Request, ascb: nat, asid: nat)
    requires Core(st) && Serves(st, t, own) && Cuts(st, t) && Inv(t, h) && q.verb.Select? && ParkedFor(st, n, q, ascb, asid) && own != Some(q.rid)
    ensures Served(st, t, n, q, ascb, asid)
  {
    assert Moved(st, t, q.rid);
    if t.sels[n].None? {
      assert Found(t, q.rid);
      SameAskSevered(st, t, q.verb.items, st.sels[n].value.items);
      assert AnsweredAt(st, t, t.place[q.rid].at, q, ascb, asid);
    }
  }

  /** The poke comes to block `n`: it is answered from the state the poke began in. */
  lemma RescanHere(st: Stack, u: Stack, n: nat, q: Request, ascb: nat, asid: nat)
    requires Core(u) && SamePoll(st, u) && st.log <= u.log && q.verb.Select? && ParkedFor(u, n, q, ascb, asid)
    ensures ParkedFor(Rescan(u, n), n, q, ascb, asid) || ToldAt(st, Rescan(u, n), |u.log|, q, ascb, asid)
  {
    var cb := u.sels[n].value;
    ScanAsks(u, q.verb.items, cb.items, ascb, asid);
    SamePollBits(st, u, q.verb.items, ascb, asid);
  }

  lemma PokeBehind(st: Stack, a: Stack, k: nat, n: nat, q: Request, ascb: nat, asid: nat)
    requires Core(a) && n < k && q.verb.Select? && (ParkedFor(a, n, q, ascb, asid) || exists m :: ToldAt(st, a, m, q, ascb, asid))
    ensures Served(st, RescanFrom(a, k), n, q, ascb, asid)
  {
    RescanFromKeeps(a, k);
    var t := RescanFrom(a, k);
    if !ParkedFor(a, n, q, ascb, asid) {
      var m :| ToldAt(st, a, m, q, ascb, asid);
      assert AnsweredAt(st, t, m, q, ascb, asid);
    }
  }

  lemma {:induction false} PokeServed(st: Stack, u: Stack, k: nat, n: nat, q: Request, ascb: nat, asid: nat)
    requires Core(u) && SamePoll(st, u) && st.log <= u.log && k <= n && q.verb.Select? && ParkedFor(u, n, q, ascb, asid)
    ensures Served(st, RescanFrom(u, k), n, q, ascb, asid)
    decreases |u.sels| - k
  {
    var a := Rescan(u, k);
    RescanKeeps(u, k);
    if k == n {
      RescanHere(st, u, n, q, ascb, asid);
      PokeBehind(st, a, k + 1, n, q, ascb, asid);
    } else {
      PollTrans(st, u, k);
      PokeServed(st, a, k + 1, n, q, ascb, asid);
    }
  }

  lemma PollTrans(st: Stack, u: Stack, k: nat)
    requires Core(u) && SamePoll(st, u) && k < |u.sels|
    ensures SamePoll(st, Rescan(u, k))
  {
    RescanPoll(u, k);
  }

  lemma UnreadyNone(items: seq<Item>)
    ensures CountReady(Unready(items)) == 0 && SameAsk(items, Unready(items))
  {
  }

  lemma TimeoutServed(st: Stack, k: nat, n: nat, q: Request, ascb: nat, asid: nat)
    requires Core(st) && Enabled(st, Timeout(k)) && q.verb.Select? && ParkedFor(st, n, q, ascb, asid)
    ensures Served(st, Step(st, Timeout(k)), n, q, ascb, asid)
  {
    var items := st.sels[k].value.items;
    UnreadyNone(items);
    SelFinishKeeps(st, k, 0, 0, Unready(items));
    if k == n { assert AnsweredAt(st, Step(st, Timeout(k)), |st.log|, q, ascb, asid); }
  }

  /** The queue and the bookkeeping of the request in hand have no part in an answer. */
  lemma AnsweredBehind(st: Stack, u: Stack, t: Stack, m: nat, q: Request, ascb: nat, asid: nat)
    requires q.verb.Select? && AnsweredAt(u, t, m, q, ascb, asid) && u == st.(queue := u.queue, place := u.place)
    ensures AnsweredAt(st, t, m, q, ascb, asid)
  {
    if !ToldAt(u, t, m, q, ascb, asid) {
      var i: nat :| Gone(u, t, i) && HasDesc(q.verb.items, Desc(u.tab[i].gen, i));
      assert Gone(st, t, i);
    }
  }

  lemma DispatchServed(st: Stack, a: Action, n: nat, q: Request, ascb: nat, asid: nat)
    requires Inv(st, None) && Enabled(st, a) && a.Dispatch? && q.verb.Select? && ParkedFor(st, n, q, ascb, asid)
    ensures Served(st, Step(st, a), n, q, ascb, asid)
  {
    var h := st.queue[0];
    assert Waits(st, h);
    var u := st.(queue := st.queue[1..], place := st.place[h.rid := InHand]);
    TakeKeeps(st);
    HandleServes(u, h, a.ascb, a.asid, a.classify, a.due);
    HandleCuts(u, h, a.ascb, a.asid, a.classify, a.due);
    StepKeeps(st, a);
    ServesParked(u, Step(st, a), Some(h.rid), None, n, q, ascb, asid);
    if !ParkedFor(Step(st, a), n, q, ascb, asid) {
      var m :| AnsweredAt(u, Step(st, a), m, q, ascb, asid);
      AnsweredBehind(st, u, Step(st, a), m, q, ascb, asid);
    }
  }

  lemma EndingServed(st: Stack, a: Action, n: nat, q: Request, ascb: nat, asid: nat)
    requires Inv(st, None) && Enabled(st, a) && q.verb.Select? && ParkedFor(st, n, q, ascb, asid) && Ending(st, Step(st, a)) && Cuts(st, Step(st, a))
    ensures Served(st, Step(st, a), n, q, ascb, asid)
  {
    StepKeeps(st, a);
    ServesParked(st, Step(st, a), None, None, n, q, ascb, asid);
  }

  /** Every step of every party leaves a parked SELECT parked for what it asked, or answers it: truthfully, or by
      an abort as it tears down a socket the SELECT names. */
  lemma StepServed(st: Stack, a: Action, n: nat, q: Request, ascb: nat, asid: nat)
    requires Inv(st, None) && Enabled(st, a) && q.verb.Select? && ParkedFor(st, n, q, ascb, asid)
    ensures Served(st, Step(st, a), n, q, ascb, asid)
  {
    match a {
      case Dispatch(_, _, _, _) => DispatchServed(st, a, n, q, ascb, asid);
      case Notify => PokeServed(st, st, 0, n, q, ascb, asid);
      case Timeout(k) => TimeoutServed(st, k, n, q, ascb, asid);
      case Reset(i) => DestroyEnds(st, i); DestroyTears(st, i); EndingServed(st, a, n, q, ascb, asid);
      case SweepNow(classify, due) =>
        NothingCuts(st);
        if due { SweepFromEnds(st, classify, 0); SweepTears(st, classify, 0); } else { StaysEnding(st); }
        EndingServed(st, a, n, q, ascb, asid);
      case PassiveOpen(i, attaches) =>
        CreateEnds(st, st.tab[i].sock.value.apptok, attaches, Some(i));
        CreateCuts(st, st.tab[i].sock.value.apptok, attaches, Some(i));
        EndingServed(st, a, n, q, ascb, asid);
      case Submit(_) | Finish(_, _, _, _) | Becomes(_, _) | Accepted(_) =>
    }
  }

  // ---- a SELECT's own dispatch ---------------------------------------------------------------------------------

  /** Dispatched, a SELECT is answered on the spot, refused, or parked for what it asked. */
  lemma OwnDispatch(st: Stack, a: Action)
    requires Inv(st, None) && Enabled(st, a) && a.Dispatch? && st.queue[0].verb.Select?
    ensures var (q, t) := (st.queue[0], Step(st, a));
      || ToldAt(st, t, |st.log|, q, a.ascb, a.asid) || RefusedAt(st, t, |st.log|, q)
      || exists n :: ParkedFor(t, n, q, a.ascb, a.asid)
  {
    var q := st.queue[0];
    ScanAsks(st, q.verb.items, q.verb.items, a.ascb, a.asid);
    if q.verb.whole && !Spot(st, q, a.ascb, a.asid) && FreeSel(st.sels, 0) < |st.sels| {
      assert ParkedFor(Step(st, a), FreeSel(st.sels, 0), q, a.ascb, a.asid);
    }
  }

  /** Something is ready, or the request waits for nothing. */
  predicate Spot(st: Stack, q: Request, ascb: nat, asid: nat)
    requires q.verb.Select?
  {
    CountReady(Scanned(st.tab, st.apps, q.verb.items, ascb, asid)) > 0 || (q.verb.timed && q.verb.zero)
  }

  // ---- runs -----------------------------------------------------------------------------------------------------

  ghost predicate InLine(st: Stack, q: Request) { exists m :: 0 <= m < |st.queue| && st.queue[m] == q }

  lemma QueuedThen(st: Stack, q: Request)
    requires QueueOk(st) && InLine(st, q)
    ensures q.rid in st.place && st.place[q.rid] == Queued
  {
    var m :| 0 <= m < |st.queue| && st.queue[m] == q;
    assert Waits(st, st.queue[m]);
  }

  /** A queued request stays queued until it is dispatched itself. */
  lemma StaysInLine(st: Stack, a: Action, q: Request)
    requires Inv(st, None) && Enabled(st, a) && InLine(st, q) && !(a.Dispatch? && st.queue[0] == q)
    ensures InLine(Step(st, a), q)
  {
    var t := Step(st, a);
    var m :| 0 <= m < |st.queue| && st.queue[m] == q;
    match a {
      case Dispatch(ascb, asid, classify, due) =>
        var h := st.queue[0];
        HandleServes(st.(queue := st.queue[1..], place := st.place[h.rid := InHand]), h, ascb, asid, classify, due);
        assert t.queue[m - 1] == q;
      case Notify => RescanFromKeeps(st, 0); assert t.queue[m] == q;
      case Reset(i) => DestroyEnds(st, i); assert t.queue[m] == q;
      case SweepNow(classify, due) => if due { SweepFromEnds(st, classify, 0); } assert t.queue[m] == q;
      case PassiveOpen(i, attaches) => CreateEnds(st, st.tab[i].sock.value.apptok, attaches, Some(i)); assert t.queue[m] == q;
      case _ => assert t.queue[m] == q;
    }
  }

  lemma LogGrows(st: Stack, a: Action)
    requires Inv(st, None) && Enabled(st, a)
    ensures st.log <= Step(st, a).log
  {
    match a {
      case Dispatch(ascb, asid, classify, due) =>
        var h := st.queue[0];
        HandleServes(st.(queue := st.queue[1..], place := st.place[h.rid := InHand]), h, ascb, asid, classify, due);
      case Notify => RescanFromKeeps(st, 0);
      case Reset(i) => DestroyEnds(st, i);
      case SweepNow(classify, due) => if due { SweepFromEnds(st, classify, 0); }
      case PassiveOpen(i, attaches) => CreateEnds(st, st.tab[i].sock.value.apptok, attaches, Some(i));
      case _ =>
    }
  }

  /** Step `d` dispatched request `q`. */
  ghost predicate DispatchedAt(ss: seq<Stack>, acts: seq<Action>, d: nat, q: Request) {
    d < |acts| < |ss| && acts[d].Dispatch? && ss[d].queue != [] && ss[d].queue[0] == q
  }

  /** Completion `m` of `q` was made at step `j`, for the caller it was dispatched for at step `d`; a refusal was
      made at step `d`. */
  ghost predicate Answered(ss: seq<Stack>, acts: seq<Action>, d: nat, j: nat, m: nat, q: Request) {
    && q.verb.Select? && DispatchedAt(ss, acts, d, q) && d <= j < |acts|
    && (AnsweredAt(ss[j], ss[j + 1], m, q, acts[d].ascb, acts[d].asid) || (j == d && RefusedAt(ss[d], ss[d + 1], m, q)))
  }

  /** Where a submitted SELECT is, `x` steps into the run. */
  ghost predicate Stage(ss: seq<Stack>, acts: seq<Action>, x: nat, d: nat, j: nat, m: nat, q: Request)
    requires x <= |acts| < |ss| && q.verb.Select?
  {
    || InLine(ss[x], q)
    || (d < x && DispatchedAt(ss, acts, d, q) && ParkedFor(ss[x], m, q, acts[d].ascb, acts[d].asid))
    || (j < x && Answered(ss, acts, d, j, m, q) && m < |ss[x].log| && ss[x].log[m] == ss[j + 1].log[m])
  }

  lemma FirstStage(ss: seq<Stack>, acts: seq<Action>, k: nat, q: Request)
    requires Run(ss, acts) && k < |acts| && acts[k] == Submit(q) && q.verb.Select?
    ensures InLine(ss[k + 1], q)
  {
    assert ss[k + 1].queue[|ss[k].queue|] == q;
  }

  lemma NextStage(ss: seq<Stack>, acts: seq<Action>, x: nat, d0: nat, j0: nat, m0: nat, q: Request) returns (d: nat, j: nat, m: nat)
    requires Run(ss, acts) && x < |acts| && Inv(ss[x], None) && q.verb.Select? && Stage(ss, acts, x, d0, j0, m0, q)
    ensures Stage(ss, acts, x + 1, d, j, m, q)
  {
    var st, a := ss[x], acts[x];
    d, j, m := d0, j0, m0;
    LogGrows(st, a);
    if InLine(st, q) {
      if a.Dispatch? && st.queue[0] == q {
        OwnDispatch(st, a);
        d, j := x, x;
        if ToldAt(st, ss[x + 1], |st.log|, q, a.ascb, a.asid) || RefusedAt(st, ss[x + 1], |st.log|, q) { m := |st.log|; }
        else { m :| ParkedFor(ss[x + 1], m, q, a.ascb, a.asid); }
      } else {
        StaysInLine(st, a, q);
      }
    } else if d < x && DispatchedAt(ss, acts, d, q) && ParkedFor(st, m, q, acts[d].ascb, acts[d].asid) {
      var (ascb, asid) := (acts[d].ascb, acts[d].asid);
      StepServed(st, a, m, q, ascb, asid);
      if !ParkedFor(ss[x + 1], m, q, ascb, asid) {
        j := x;
        m :| AnsweredAt(st, ss[x + 1], m, q, ascb, asid);
      }
    }
  }

  lemma {:induction false} StageOf(ss: seq<Stack>, acts: seq<Action>, k: nat, x: nat, q: Request) returns (d: nat, j: nat, m: nat)
    requires Run(ss, acts) && Initial(ss[0]) && k < x <= |acts| && acts[k] == Submit(q) && q.verb.Select?
    ensures Stage(ss, acts, x, d, j, m, q)
    decreases x
  {
    if x == k + 1 {
      FirstStage(ss, acts, k, q);
      d, j, m := 0, 0, 0;
    } else {
      d, j, m := StageOf(ss, acts, k, x - 1, q);
      RunInv(ss, acts, x - 1);
      d, j, m := NextStage(ss, acts, x - 1, d, j, m, q);
    }
  }

  /** Over all runs: the completion of a submitted SELECT was made at some step `j`. It says of the state `j` began
      in, for the caller it was dispatched for, exactly which of what it asked is ready and how many, or of a SELECT
      with a time limit that nothing is; or step `j` tore down a socket it names; or `j` was its own dispatch, and
      what it asked was no whole number of items, or every SELECT block was taken. */
  lemma SelectHonest(ss: seq<Stack>, acts: seq<Action>, k: nat, n: nat, m: nat, q: Request) returns (d: nat, j: nat)
    requires Run(ss, acts) && Initial(ss[0]) && k < n <= |acts| && acts[k] == Submit(q) && q.verb.Select?
    requires m < |ss[n].log| && ss[n].log[m].rid == q.rid
    ensures d <= j < n && DispatchedAt(ss, acts, d, q) && |ss[j].log| <= m < |ss[j + 1].log|
    ensures var c := ss[n].log[m];
      || Truthful(ss[j], c, q, acts[d].ascb, acts[d].asid)
      || Excused(ss[j], ss[j + 1], c, q)
      || (j == d && Refused(ss[d], c, q))
  {
    var m0;
    d, j, m0 := StageOf(ss, acts, k, n, q);
    RunInv(ss, acts, n);
    var st := ss[n];
    assert st.place[q.rid] == Done(m);
    if InLine(st, q) {
      QueuedThen(st, q);
      assert false;
    } else if d < n && DispatchedAt(ss, acts, d, q) && ParkedFor(st, m0, q, acts[d].ascb, acts[d].asid) {
      assert false;
    } else {
      assert st.log[m0].rid == q.rid;
      assert m0 == m;
    }
  }

  // ---- the poll form ------------------------------------------------------------------------------------------

  lemma {:induction false} RunLogGrows(ss: seq<Stack>, acts: seq<Action>, x: nat, n: nat)
    requires Run(ss, acts) && Initial(ss[0]) && x <= n <= |acts|
    ensures ss[x].log <= ss[n].log
    decreases n
  {
    if x < n {
      RunLogGrows(ss, acts, x, n - 1);
      RunInv(ss, acts, n - 1);
      LogGrows(ss[n - 1], acts[n - 1]);
    }
  }

  /** A SELECT of whole items that waits for nothing. */
  predicate Polls(q: Request) { q.verb.Select? && q.verb.whole && q.verb.timed && q.verb.zero }

  /** What is ready of what was asked, and how much, none included. */
  function Truth(st: Stack, q: Request, ascb: nat, asid: nat): Completion
    requires q.verb.Select?
  {
    var scanned := Scanned(st.tab, st.apps, q.verb.items, ascb, asid);
    Completion(q.rid, CountReady(scanned), 0, scanned)
  }

  lemma PollDispatched(st: Stack, a: Action)
    requires Enabled(st, a) && a.Dispatch? && Polls(st.queue[0])
    ensures Step(st, a).log == st.log + [Truth(st, st.queue[0], a.ascb, a.asid)]
  {
  }

  /** Over all runs: a SELECT that waits for nothing is completed by its own dispatch, with exactly what is
      ready in that state, even if nothing is. */
  lemma PollHonest(ss: seq<Stack>, acts: seq<Action>, k: nat, n: nat, m: nat, q: Request) returns (d: nat)
    requires Run(ss, acts) && Initial(ss[0]) && k < n <= |acts| && acts[k] == Submit(q) && Polls(q)
    requires m < |ss[n].log| && ss[n].log[m].rid == q.rid
    ensures d < n && DispatchedAt(ss, acts, d, q) && m == |ss[d].log| && ss[n].log[m] == Truth(ss[d], q, acts[d].ascb, acts[d].asid)
  {
    var j;
    d, j := SelectHonest(ss, acts, k, n, m, q);
    PollDispatched(ss[d], acts[d]);
    RunLogGrows(ss, acts, d + 1, n);
    var at := |ss[d].log|;
    assert ss[n].log[at] == ss[d + 1].log[at];
    if at < m { AtMostOnce(ss, acts, n, at, m); } else if m < at { AtMostOnce(ss, acts, n, m, at); }
  }
}
