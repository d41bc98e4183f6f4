/** The socket table, the application registry and the SELECT blocks as the executive updates them in
    place: the loops of src/nsfsoc.c, src/nsfreq.c and src/nsfsel.c, each proved to do what the model
    of the whole layer says. */
module SocketLayer {
  import opened Options
  import opened Sockets
  import SocketSafety

  predicate SameSocks(a: seq<SockSlot>, b: seq<SockSlot>) {
    |b| == |a| && forall i :: 0 <= i < |a| ==> b[i].sock.Some? == a[i].sock.Some?
  }

  class Layer {
    var tab: seq<SockSlot>
    var apps: seq<App>
    var sels: seq<Option<Sel>>
    var queue: seq<Request>
    var log: seq<Completion>
    var sockdesc: map<Rid, nat>
    ghost var place: map<Rid, Place>

    ghost function View(): Stack
      reads this
    {
      Stack(tab, apps, sels, queue, sockdesc, place, log)
    }

    ghost predicate Valid()
      reads this
    {
      |tab| <= SOC_MAX && |apps| == APP_MAX && |sels| == SEL_MAX
    }

    /** `sock_lookup`. */
    method SockLookup(desc: nat) returns (i: Option<nat>)
      requires Valid()
      ensures i == Lookup(tab, desc)
    {
      var id, gen := desc % 0x1_0000, desc / 0x1_0000 % 0x1_0000;
      if id >= |tab| {
        return None;
      }
      if tab[id].sock.None? {
        return None;
      }
      if tab[id].gen != gen {
        return None;
      }
      return Some(id);
    }

    /** `soc_complete`. */
    method SocComplete(rid: Rid, retcode: int, errno: int, items: seq<Item>)
      requires Valid()
      modifies this`tab, this`log, this`place
      ensures Valid() && View() == Complete(old(View()), rid, retcode, errno, items) && SameSocks(old(tab), tab)
    {
      var i := SockLookup(if rid in sockdesc then sockdesc[rid] else 0);
      if i.Some? {
        var s := tab[i.value].sock.value;
        var p := s.pends;
        if p.recv == Some(rid) { p := p.(recv := None); }
        if p.accept == Some(rid) { p := p.(accept := None); }
        if p.connect == Some(rid) { p := p.(connect := None); }
        if p.send == Some(rid) { p := p.(send := None); }
        tab := tab[i.value := tab[i.value].(sock := Some(s.(pends := p)))];
      }
      place := place[rid := Done(|log|)];
      log := log + [Completion(rid, retcode, errno, items)];
    }

    /** `nsfreq_sock_owned`. */
    method OwnedSock(desc: nat, ascb: nat, asid: nat) returns (i: Option<nat>)
      requires Valid()
      ensures i == SockOwned(tab, apps, desc, ascb, asid)
    {
      i := SockLookup(desc);
      if i.None? || ascb == 0 {
        return;
      }
      var token := tab[i.value].sock.value.apptok;
      var idx := token % 0x1_0000;
      if idx >= |apps| || !apps[idx].inuse || apps[idx].gen != token / 0x1_0000 % 0x1_0000 {
        return None;
      }
      if apps[idx].ascb != ascb || apps[idx].asid != asid {
        return None;
      }
    }

    /** `sel_scan`. */
    method SelScan(items: seq<Item>, ascb: nat, asid: nat) returns (out: seq<Item>, count: nat)
      requires Valid()
      ensures out == Scanned(tab, apps, items, ascb, asid) && count == CountReady(out)
    {
      out, count := [], 0;
      var j := 0;
      ghost var all := Scanned(tab, apps, items, ascb, asid);
      while j < |items|
        invariant 0 <= j <= |items| && out == all[..j] && count == CountReady(out)
      {
        var i := OwnedSock(items[j].desc, ascb, asid);
        var ready := Bits(false, false);
        if i.Some? {
          ready := And(tab[i.value].sock.value.ready, items[j].want);
        }
        assert all[j] == items[j].(ready := ready);
        CountNext(all, j);
        out := out + [items[j].(ready := ready)];
        if Any(ready) {
          count := count + 1;
        }
        j := j + 1;
      }
    }

    /** `sel_finish`. */
    method FinishSel(n: nat, retcode: int, errno: int, items: seq<Item>)
      requires Valid() && n < |sels| && sels[n].Some?
      modifies this`tab, this`log, this`place, this`sels
      ensures Valid() && View() == SelFinish(old(View()), n, retcode, errno, items) && SameSocks(old(tab), tab)
    {
      var rid := sels[n].value.rid;
      sels := sels[n := None];
      SocComplete(rid, retcode, errno, items);
    }

    /** `nsfsel_on_notify` on a readiness change: re-scan every parked SELECT. */
    method NotifyReady()
      requires Valid()
      modifies this`tab, this`log, this`place, this`sels
      ensures Valid() && View() == Poke(old(View()))
    {
      var n := 0;
      while n < SEL_MAX
        invariant 0 <= n <= SEL_MAX && Valid()
        invariant RescanFrom(old(View()), 0) == RescanFrom(View(), n)
      {
        if sels[n].Some? {
          var cb := sels[n].value;
          var items, count := SelScan(cb.items, cb.ascb, cb.asid);
          if count > 0 {
            FinishSel(n, count, 0, items);
          } else {
            sels := sels[n := Some(cb.(items := items))];
          }
        }
        n := n + 1;
      }
    }

    /** `sel_has_desc`. */
    method SelHasDesc(items: seq<Item>, desc: nat) returns (has: bool)
      ensures has == HasDesc(items, desc)
    {
      var j := 0;
      while j < |items|
        invariant 0 <= j <= |items| && forall m :: 0 <= m < j ==> items[m].desc != desc
      {
        if items[j].desc == desc {
          return true;
        }
        j := j + 1;
      }
      return false;
    }

    /** `nsfsel_on_notify` for a socket going away. */
    method NotifyDead(desc: nat)
      requires Valid()
      modifies this`tab, this`log, this`place, this`sels
      ensures Valid() && View() == AbortFrom(old(View()), 0, desc) && SameSocks(old(tab), tab)
    {
      var n := 0;
      while n < SEL_MAX
        invariant 0 <= n <= SEL_MAX && Valid()
        invariant AbortFrom(old(View()), 0, desc) == AbortFrom(View(), n, desc) && SameSocks(old(tab), tab)
      {
        if sels[n].Some? {
          var has := SelHasDesc(sels[n].value.items, desc);
          if has {
            FinishSel(n, RETERR, ECONNABORTED, sels[n].value.items);
          }
        }
        n := n + 1;
      }
    }
    /** Complete whatever is parked in one pend slot of a dying socket. */
    method AbortOne(i: nat, k: Kind)
      requires Valid() && i < |tab| && tab[i].sock.Some?
      modifies this`tab, this`log, this`place
      ensures Valid() && View() == AbortPend(old(View()), i, k) && SameSocks(old(tab), tab)
    {
      var r := GetPend(tab[i].sock.value.pends, k);
      if r.Some? {
        SocComplete(r.value, RETERR, ECONNABORTED, []);
      }
    }

    method AbortAll(i: nat)
      requires Valid() && i < |tab| && tab[i].sock.Some?
      modifies this`tab, this`log, this`place
      ensures Valid() && View() == AbortPends(old(View()), i) && SameSocks(old(tab), tab)
    {
      AbortOne(i, Recv);
      AbortOne(i, Accept);
      AbortOne(i, Connect);
      AbortOne(i, Send);
    }

    /** Move the slot's generation on, never to 0, and vacate it. */
    method VacateSlot(i: nat)
      requires Valid() && i < |tab|
      modifies this`tab
      ensures Valid() && View() == Vacate(old(View()), i)
    {
      var gen := (tab[i].gen + 1) % 0x1_0000;
      if gen == 0 {
        gen := 1;
      }
      tab := tab[i := SockSlot(None, gen, tab[i].inc + 1)];
    }

    /** The checklist for a child socket. */
    method DestroyChild(i: nat)
      requires Valid() && i < |tab| && tab[i].sock.Some?
      modifies this`tab, this`log, this`place, this`sels
      ensures Valid() && View() == DestroyLeaf(old(View()), i)
    {
      NotifyDead(Desc(tab[i].gen, i));
      AbortAll(i);
      VacateSlot(i);
    }

    /** A listener's detach: every child not yet accepted goes first. */
    method DetachKids(i: nat)
      requires Valid()
      modifies this`tab, this`log, this`place, this`sels
      ensures Valid() && View() == DestroyKids(old(View()), i, 0)
    {
      var j := 0;
      while j < SOC_MAX
        invariant 0 <= j <= SOC_MAX && Valid()
        invariant DestroyKids(old(View()), i, 0) == DestroyKids(View(), i, j)
      {
        if j < |tab| && tab[j].sock.Some? && tab[j].sock.value.parent == Some(i) {
          DestroyChild(j);
        }
        j := j + 1;
      }
    }

    /** `soc_destroy`. */
    method SocDestroy(i: nat)
      requires Valid() && i < |tab| && tab[i].sock.Some?
      requires SocketSafety.Core(View())
      modifies this`tab, this`log, this`place, this`sels
      ensures Valid() && View() == Destroy(old(View()), i)
    {
      SocketSafety.AbortFromKeeps(View(), 0, Desc(tab[i].gen, i));
      NotifyDead(Desc(tab[i].gen, i));
      SocketSafety.DestroyKidsKeeps(View(), i, 0);
      label L:
      assert i < |tab| && tab[i].sock.Some?;
      DetachKids(i);
      assert SocketSafety.SlotEnds(old@L(tab[i]), tab[i]);
      AbortAll(i);
      VacateSlot(i);
    }

    method TermStep(token: nat, i: nat)
      requires Valid() && SocketSafety.Core(View())
      modifies this`tab, this`log, this`place, this`sels
      ensures Valid() && View() == TermOne(old(View()), token, i) && SocketSafety.Core(View())
    {
      SocketSafety.TermOneKeeps(View(), token, i);
      if i < |tab| && tab[i].sock.Some? && tab[i].sock.value.apptok == token {
        SocDestroy(i);
      }
    }

    /** `soc_foreach(term_one)`: every socket of one application. */
    method Terminate(token: nat)
      requires Valid() && SocketSafety.Core(View())
      modifies this`tab, this`log, this`place, this`sels
      ensures Valid() && View() == TermFrom(old(View()), token, 0)
    {
      var i := 0;
      ghost var st := View();
      ghost var goal := TermFrom(st, token, i);
      while i < SOC_MAX
        invariant 0 <= i <= SOC_MAX && Valid() && SocketSafety.Core(View())
        invariant st == View() && goal == TermFrom(st, token, i)
      {
        TermSplits(st, token, i);
        TermStep(token, i);
        st := TermOne(st, token, i);
        i := i + 1;
      }
    }

    /** The token is read before the slot is freed: freeing moves its generation on. */
    method ReclaimApp(i: nat)
      requires Valid() && i < |apps| && SocketSafety.Core(View())
      modifies this`tab, this`log, this`place, this`sels, this`apps
      ensures Valid() && View() == Reclaim(old(View()), i)
    {
      var token := Desc(apps[i].gen, i);
      Terminate(token);
      var gen := (apps[i].gen + 1) % 0x1_0000;
      if gen == 0 {
        gen := 1;
      }
      apps := apps[i := App(false, gen, 0, 0)];
    }

    /** One registry slot's share of the sweep. */
    method SweepStep(classify: (nat, nat) -> Verdict, i: nat) returns (dead: bool)
      requires Valid() && SocketSafety.Core(View()) && i < APP_MAX
      modifies this`tab, this`log, this`place, this`sels, this`apps
      ensures Valid() && View() == SweepOne(old(View()), classify, i) && SocketSafety.Core(View())
    {
      SocketSafety.ReclaimCore(View(), i);
      dead := apps[i].inuse && apps[i].ascb != 0 && classify(apps[i].ascb, apps[i].asid) == Dead;
      if dead {
        ReclaimApp(i);
      }
    }

    /** `nsfreq_app_sweep`, with the classifier the transport registered. */
    method AppSweep(classify: (nat, nat) -> Verdict, due: bool, ghost h: Option<Rid>) returns (reclaimed: Option<nat>)
      requires Valid() && SocketSafety.Inv(View(), h)
      modifies this`tab, this`log, this`place, this`sels, this`apps
      ensures Valid() && View() == Sweep(old(View()), classify, due) && SocketSafety.Inv(View(), h)
      ensures reclaimed.Some? <==> due
    {
      if !due {
        return None;
      }
      var count := 0;
      var i := 0;
      ghost var st := View();
      SocketSafety.SweepInv(st, classify, i, h);
      ghost var goal := SweepFrom(st, classify, i);
      while i < APP_MAX
        invariant 0 <= i <= APP_MAX && Valid() && SocketSafety.Core(View())
        invariant st == View() && goal == SweepFrom(st, classify, i)
      {
        SweepSplits(st, classify, i);
        var dead := SweepStep(classify, i);
        st := SweepOne(st, classify, i);
        if dead {
          count := count + 1;
        }
        i := i + 1;
      }
      SweepEnds(st, classify, i);
      return Some(count);
    }

    // ---- allocation ------------------------------------------------------------------------------------

    /** The scan for the lowest free socket slot ... */
    method FirstFreeSock() returns (i: nat)
      requires Valid()
      ensures i == FreeSlot(tab, 0)
    {
      i := 0;
      while i < |tab| && tab[i].sock.Some?
        invariant i <= |tab| && FreeSlot(tab, 0) == FreeSlot(tab, i)
      {
        i := i + 1;
      }
    }

    /** ... application slot ... */
    method FirstFreeApp() returns (i: nat)
      requires Valid()
      ensures i == FreeApp(apps, 0)
    {
      i := 0;
      while i < |apps| && apps[i].inuse
        invariant i <= |apps| && FreeApp(apps, 0) == FreeApp(apps, i)
      {
        i := i + 1;
      }
    }

    /** ... and SELECT block. */
    method FirstFreeSel() returns (n: nat)
      requires Valid()
      ensures n == FreeSel(sels, 0)
    {
      n := 0;
      while n < |sels| && sels[n].Some?
        invariant n <= |sels| && FreeSel(sels, 0) == FreeSel(sels, n)
      {
        n := n + 1;
      }
    }

    /** `soc_create`: a failed attach goes through the one teardown path. */
    method SocCreate(apptok: nat, attaches: bool, parent: Option<nat>, ghost h: Option<Rid>) returns (i: Option<nat>)
      requires Valid() && SocketSafety.Inv(View(), h) && SocketSafety.Belongs(apps, apptok)
      requires SocketSafety.Adopts(tab, apptok, parent)
      modifies this`tab, this`log, this`place, this`sels
      ensures Valid() && (View(), i) == Create(old(View()), apptok, attaches, parent) && SocketSafety.Inv(View(), h)
    {
      SocketSafety.CreateInv(View(), apptok, attaches, parent, h);
      var k := FirstFreeSock();
      if k == |tab| {
        return None;
      }
      SocketSafety.OpenInv(View(), k, apptok, parent, h);
      tab := tab[k := tab[k].(sock := Some(Sock(apptok, NO_PENDS, Bits(false, false), parent)))];
      if !attaches {
        SocDestroy(k);
        return None;
      }
      i := Some(k);
    }

    /** The INITAPI handler: the lowest free application slot, after a sweep if there is none. */
    method InitApi(rid: Rid, ascb: nat, asid: nat, classify: (nat, nat) -> Verdict, due: bool)
      requires Valid() && SocketSafety.Inv(View(), Some(rid))
      modifies this`tab, this`log, this`place, this`sels, this`apps
      ensures Valid() && View() == DoInitApi(old(View()), rid, ascb, asid, classify, due)
    {
      var i := FirstFreeApp();
      if i == |apps| {
        var reclaimed := AppSweep(classify, due, Some(rid));
        i := FirstFreeApp();
      }
      if i == |apps| {
        SocComplete(rid, RETERR, EMFILE, []);
      } else {
        apps := apps[i := App(true, apps[i].gen, ascb, asid)];
        SocComplete(rid, RETOK, 0, []);
      }
    }

    /** `nsfsel_dispatch`: answer on the spot, or park in the lowest free block. */
    method SelectRequest(rid: Rid, items: seq<Item>, whole: bool, timed: bool, zero: bool, ascb: nat, asid: nat)
      requires Valid()
      modifies this`tab, this`log, this`place, this`sels, this`sockdesc
      ensures Valid() && View() == DoSelect(old(View()), rid, items, whole, timed, zero, ascb, asid)
      ensures !whole ==> log == old(log) + [Completion(rid, -1, 22, [])] && sels == old(sels)
      ensures var scanned := Scanned(old(tab), old(apps), items, ascb, asid);
        whole && (CountReady(scanned) > 0 || (timed && zero)) ==>
          log == old(log) + [Completion(rid, CountReady(scanned), 0, scanned)] && sels == old(sels)
      ensures var scanned := Scanned(old(tab), old(apps), items, ascb, asid);
        whole && CountReady(scanned) == 0 && !(timed && zero) ==>
          || (log == old(log) && exists n :: 0 <= n < |old(sels)| && old(sels)[n].None? && sels == old(sels)[n := Some(Sel(rid, scanned, ascb, asid, timed))])
          || (log == old(log) + [Completion(rid, -1, 24, scanned)] && sels == old(sels) && forall n :: 0 <= n < |sels| ==> sels[n].Some?)
    {
      sockdesc := sockdesc[rid := 0];
      if !whole {
        SocComplete(rid, RETERR, EINVAL, []);
        return;
      }
      var scanned, count := SelScan(items, ascb, asid);
      if count > 0 {
        SocComplete(rid, count, 0, scanned);
        return;
      }
      if timed && zero {
        SocComplete(rid, 0, 0, scanned);
        return;
      }
      var n := FirstFreeSel();
      if n == |sels| {
        SocComplete(rid, RETERR, EMFILE, scanned);
        return;
      }
      sels := sels[n := Some(Sel(rid, scanned, ascb, asid, timed))];
      place := place[rid := InSel(n)];
    }
  }
}
