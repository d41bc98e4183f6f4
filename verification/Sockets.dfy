/** The request manager, the socket table and the SELECT engine as one state (src/nsfreq.c,
    src/nsfsoc.c, src/nsfsel.c): what each operation does to it. Protocol callbacks are an abstract
    contract: an operation completes its request, parks it, or refuses it. */
module Sockets {
  import opened Options

  const SOC_MAX: nat := 64
  const APP_MAX: nat := 64
  const SEL_MAX: nat := 4
  const GEN_WRAP: nat := 65535
  const WORD: nat := 0x1_0000_0000

  const RETOK: int := 0
  const RETERR: int := -1
  const EBADF: int := 9
  const EINVAL: int := 22
  const EMFILE: int := 24
  const EPROTONOSUPPORT: int := 43
  const ECONNABORTED: int := 53

  type Rid = nat

  // ---- control blocks --------------------------------------------------------------------------------

  datatype Bits = Bits(read: bool, write: bool)

  /** The four pend slots of a socket. */
  datatype Pends = Pends(recv: Option<Rid>, accept: Option<Rid>, connect: Option<Rid>, send: Option<Rid>)

  datatype Kind = Recv | Accept | Connect | Send

  /** `ready` is what a poll would answer now; `parent` is the listener of a child not yet accepted. */
  datatype Sock = Sock(apptok: nat, pends: Pends, ready: Bits, parent: Option<nat>)

  /** One table slot: `gen` survives the socket; `inc` counts its recyclings. */
  datatype SockSlot = SockSlot(sock: Option<Sock>, gen: nat, inc: nat)

  datatype App = App(inuse: bool, gen: nat, ascb: nat, asid: nat)

  datatype Item = Item(desc: nat, want: Bits, ready: Bits)

  datatype Sel = Sel(rid: Rid, items: seq<Item>, ascb: nat, asid: nat, timed: bool)

  /** Where a request is. */
  datatype Place = Queued | InHand | OnSock(i: nat, k: Kind) | InSel(n: nat) | Done(at: nat)

  datatype Completion = Completion(rid: Rid, retcode: int, errno: int, items: seq<Item>)

  datatype Stack = Stack(
    tab: seq<SockSlot>, apps: seq<App>, sels: seq<Option<Sel>>,
    queue: seq<Request>,
    sockdesc: map<Rid, nat>,              // each request's own descriptor field
    place: map<Rid, Place>,               // bookkeeping: where every submitted request is
    log: seq<Completion>)                 // every completion, in order

  // ---- requests ------------------------------------------------------------------------------------------

  /** What a protocol operation does with its request. */
  datatype OpResult = Completes(retcode: int, errno: int) | Parks(kind: Kind) | Refuses(err: int)

  datatype CloseResult = NotOwned | Owned(destroys: bool)

  datatype SockOp =
    | Local(retcode: int, errno: int)              // BIND, LISTEN, names, options: completed on the spot
    | Close(close: CloseResult)
    | Delegate(result: OpResult)                   // CONNECT, ACCEPT, SEND, RECV, SHUTDOWN

  datatype Verb =
    | InitApi | TermApi
    | Socket(known: bool, attaches: bool)          // protocol registered; attach succeeds
    | OnSocket(op: SockOp)
    | Select(items: seq<Item>, whole: bool, timed: bool, zero: bool)
    | Unknown

  datatype Request = Request(rid: Rid, verb: Verb, desc: nat, apptok: nat)

  /** Client liveness as the sweep sees it. */
  datatype Verdict = Live | Dead | Unsure | NoIdentity

  // ---- descriptors and tokens ------------------------------------------------------------------------------

  function Desc(gen: nat, id: nat): nat { gen * 0x1_0000 + id }

  /** A word in a signed return code. */
  function AsInt(w: nat): int { if w < 0x8000_0000 then w else w - WORD }

  /** `sock_lookup`: the live slot a descriptor names, if its generation still matches. */
  function Lookup(tab: seq<SockSlot>, desc: nat): (r: Option<nat>)
    ensures r.Some? ==> r.value < |tab| && tab[r.value].sock.Some?
  {
    var id, gen := desc % 0x1_0000, desc / 0x1_0000 % 0x1_0000;
    if id >= |tab| then None
    else if tab[id].sock.None? then None
    else if tab[id].gen != gen then None
    else Some(id)
  }

  /** `app_index`: the live application slot a token names. */
  function AppIndex(apps: seq<App>, token: nat): (r: Option<nat>)
    ensures r.Some? ==> r.value < |apps| && apps[r.value].inuse
  {
    var idx, gen := token % 0x1_0000, token / 0x1_0000 % 0x1_0000;
    if idx >= |apps| || !apps[idx].inuse then None
    else if apps[idx].gen != gen then None
    else Some(idx)
  }

  function Bump(gen: nat): nat {
    if (gen + 1) % 0x1_0000 == 0 then 1 else (gen + 1) % 0x1_0000
  }

  /** `app_authenticate`: the token, if the caller the transport recorded owns it. */
  function Authenticate(apps: seq<App>, token: nat, ascb: nat, asid: nat): nat {
    if ascb == 0 then token
    else if AppIndex(apps, token).None? then 0
    else
      var a := apps[AppIndex(apps, token).value];
      if a.ascb != ascb || a.asid != asid then 0 else token
  }

  /** `nsfreq_sock_owned`: resolve and check in one. */
  function SockOwned(tab: seq<SockSlot>, apps: seq<App>, desc: nat, ascb: nat, asid: nat): (r: Option<nat>)
    ensures r.Some? ==> r.value < |tab| && tab[r.value].sock.Some?
  {
    var i := Lookup(tab, desc);
    if i.None? then None
    else if ascb == 0 then i
    else
      var a := AppIndex(apps, tab[i.value].sock.value.apptok);
      if a.None? then None
      else if apps[a.value].ascb != ascb || apps[a.value].asid != asid then None
      else i
  }

  // ---- completing and parking ----------------------------------------------------------------------------------

  function GetPend(p: Pends, k: Kind): Option<Rid> {
    match k case Recv => p.recv case Accept => p.accept case Connect => p.connect case Send => p.send
  }

  function SetPend(p: Pends, k: Kind, v: Option<Rid>): Pends {
    match k
    case Recv => p.(recv := v) case Accept => p.(accept := v) case Connect => p.(connect := v) case Send => p.(send := v)
  }

  /** Every pend slot naming `rid` cleared. */
  function ClearPends(p: Pends, rid: Rid): Pends {
    Pends(if p.recv == Some(rid) then None else p.recv,
          if p.accept == Some(rid) then None else p.accept,
          if p.connect == Some(rid) then None else p.connect,
          if p.send == Some(rid) then None else p.send)
  }

  function WithPends(tab: seq<SockSlot>, i: nat, p: Pends): seq<SockSlot>
    requires i < |tab| && tab[i].sock.Some?
  {
    tab[i := tab[i].(sock := Some(tab[i].sock.value.(pends := p)))]
  }

  /** A request's descriptor field. */
  function SockDesc(st: Stack, rid: Rid): nat {
    if rid in st.sockdesc then st.sockdesc[rid] else 0
  }

  /** `soc_complete`: clear the request's pend slot on its own socket, and post it. */
  function Complete(st: Stack, rid: Rid, retcode: int, errno: int, items: seq<Item>): Stack {
    var i := Lookup(st.tab, SockDesc(st, rid));
    var tab := if i.Some? then WithPends(st.tab, i.value, ClearPends(st.tab[i.value].sock.value.pends, rid)) else st.tab;
    st.(tab := tab, log := st.log + [Completion(rid, retcode, errno, items)], place := st.place[rid := Done(|st.log|)])
  }

  /** `soc_park`: one outstanding operation of each kind. */
  function Park(st: Stack, rid: Rid, i: nat, k: Kind): (Stack, int)
    requires i < |st.tab| && st.tab[i].sock.Some?
  {
    var p := st.tab[i].sock.value.pends;
    if GetPend(p, k).Some? then (st, EINVAL)
    else (st.(tab := WithPends(st.tab, i, SetPend(p, k, Some(rid))), place := st.place[rid := OnSock(i, k)]), 0)
  }

  // ---- SELECT --------------------------------------------------------------------------------------------------

  function And(a: Bits, b: Bits): Bits { Bits(a.read && b.read, a.write && b.write) }
  predicate Any(b: Bits) { b.read || b.write }

  function ReadyBits(tab: seq<SockSlot>, apps: seq<App>, it: Item, ascb: nat, asid: nat): Bits {
    var i := SockOwned(tab, apps, it.desc, ascb, asid);
    if i.None? then Bits(false, false) else And(tab[i.value].sock.value.ready, it.want)
  }

  /** `sel_scan`: each item's ready subset. */
  function Scanned(tab: seq<SockSlot>, apps: seq<App>, items: seq<Item>, ascb: nat, asid: nat): (r: seq<Item>)
    ensures |r| == |items|
  {
    seq(|items|, j requires 0 <= j < |items| => items[j].(ready := ReadyBits(tab, apps, items[j], ascb, asid)))
  }

  lemma CountNext(items: seq<Item>, j: nat)
    requires j < |items|
    ensures items[..j] + [items[j]] == items[..j + 1]
    ensures CountReady(items[..j + 1]) == CountReady(items[..j]) + if Any(items[j].ready) then 1 else 0
  {
    assert items[..j + 1][..j] == items[..j];
  }

  function CountReady(items: seq<Item>): (n: nat)
    ensures n <= |items|
    ensures n == 0 <==> forall j :: 0 <= j < |items| ==> !Any(items[j].ready)
  {
    if items == [] then 0
    else CountReady(items[..|items| - 1]) + if Any(items[|items| - 1].ready) then 1 else 0
  }

  predicate HasDesc(items: seq<Item>, desc: nat) {
    exists j :: 0 <= j < |items| && items[j].desc == desc
  }

  function Unready(items: seq<Item>): (r: seq<Item>)
    ensures |r| == |items|
  {
    seq(|items|, j requires 0 <= j < |items| => items[j].(ready := Bits(false, false)))
  }

  /** `sel_finish`: free the slot, then post. */
  function SelFinish(st: Stack, n: nat, retcode: int, errno: int, items: seq<Item>): Stack
    requires n < |st.sels| && st.sels[n].Some?
  {
    Complete(st.(sels := st.sels[n := None]), st.sels[n].value.rid, retcode, errno, items)
  }

  /** One step of the re-evaluation after a readiness change. */
  function Rescan(st: Stack, n: nat): Stack
    requires n < |st.sels|
  {
    if st.sels[n].None? then st
    else
      var cb := st.sels[n].value;
      var items := Scanned(st.tab, st.apps, cb.items, cb.ascb, cb.asid);
      if CountReady(items) > 0 then SelFinish(st, n, CountReady(items), 0, items)
      else st.(sels := st.sels[n := Some(cb.(items := items))])
  }

  /** One step of the notice that the socket behind `desc` is going away. */
  function Abort(st: Stack, n: nat, desc: nat): Stack
    requires n < |st.sels|
  {
    if st.sels[n].Some? && HasDesc(st.sels[n].value.items, desc)
    then SelFinish(st, n, RETERR, ECONNABORTED, st.sels[n].value.items)
    else st
  }

  function RescanFrom(st: Stack, n: nat): Stack
    decreases |st.sels| - n
  {
    if n >= |st.sels| then st else RescanFrom(Rescan(st, n), n + 1)
  }

  function AbortFrom(st: Stack, n: nat, desc: nat): Stack
    decreases |st.sels| - n
  {
    if n >= |st.sels| then st else AbortFrom(Abort(st, n, desc), n + 1, desc)
  }

  /** `soc_notify_ready`: re-evaluate every parked SELECT. */
  function Poke(st: Stack): Stack { RescanFrom(st, 0) }

  // ---- teardown --------------------------------------------------------------------------------------------------

  function AbortPend(st: Stack, i: nat, k: Kind): Stack {
    if i < |st.tab| && st.tab[i].sock.Some? && GetPend(st.tab[i].sock.value.pends, k).Some?
    then Complete(st, GetPend(st.tab[i].sock.value.pends, k).value, RETERR, ECONNABORTED, [])
    else st
  }

  function AbortPends(st: Stack, i: nat): Stack {
    AbortPend(AbortPend(AbortPend(AbortPend(st, i, Recv), i, Accept), i, Connect), i, Send)
  }

  function Vacate(st: Stack, i: nat): Stack
    requires i < |st.tab|
  {
    st.(tab := st.tab[i := SockSlot(None, Bump(st.tab[i].gen), st.tab[i].inc + 1)])
  }

  /** The checklist for a socket without pending children. */
  function DestroyLeaf(st: Stack, i: nat): Stack {
    if i < |st.tab| && st.tab[i].sock.Some? then
      var st1 := AbortPends(AbortFrom(st, 0, Desc(st.tab[i].gen, i)), i);
      if i < |st1.tab| then Vacate(st1, i) else st1
    else st
  }

  predicate ChildOf(tab: seq<SockSlot>, j: nat, i: nat) {
    j < |tab| && tab[j].sock.Some? && tab[j].sock.value.parent == Some(i)
  }

  /** The protocol's detach of a listener: every child not yet accepted dies first. */
  function DestroyKid(st: Stack, i: nat, j: nat): Stack {
    if ChildOf(st.tab, j, i) then DestroyLeaf(st, j) else st
  }

  function DestroyKids(st: Stack, i: nat, j: nat): Stack
    decreases SOC_MAX - j
  {
    if j >= SOC_MAX then st else DestroyKids(DestroyKid(st, i, j), i, j + 1)
  }

  /** `soc_destroy`, the one teardown path: SELECT is told, the protocol detaches, every parked
      request is completed, the generation moves on and the slot is vacated. */
  function Destroy(st: Stack, i: nat): Stack {
    if i < |st.tab| && st.tab[i].sock.Some? then
      var st1 := AbortPends(DestroyKids(AbortFrom(st, 0, Desc(st.tab[i].gen, i)), i, 0), i);
      if i < |st1.tab| then Vacate(st1, i) else st1
    else st
  }

  /** `term_one`: destroy a socket if it belongs to `token`. */
  function TermOne(st: Stack, token: nat, i: nat): Stack {
    if i < |st.tab| && st.tab[i].sock.Some? && st.tab[i].sock.value.apptok == token then Destroy(st, i) else st
  }

  /** Every socket carrying `token`, in table order. */
  function TermFrom(st: Stack, token: nat, i: nat): Stack
    decreases SOC_MAX - i
  {
    if i >= SOC_MAX then st else TermFrom(TermOne(st, token, i), token, i + 1)
  }

  lemma TermSplits(st: Stack, token: nat, i: nat)
    requires i < SOC_MAX
    ensures TermFrom(st, token, i) == TermFrom(TermOne(st, token, i), token, i + 1)
  {
  }

  function AppToken(apps: seq<App>, idx: nat): nat
    requires idx < |apps|
  {
    Desc(apps[idx].gen, idx)
  }

  function AppFree(apps: seq<App>, idx: nat): seq<App>
    requires idx < |apps|
  {
    apps[idx := App(false, Bump(apps[idx].gen), 0, 0)]
  }

  /** Everything of application slot `i` torn down, and the slot freed. */
  function Reclaim(st: Stack, i: nat): Stack
    requires i < |st.apps|
  {
    var st1 := TermFrom(st, AppToken(st.apps, i), 0);
    if i < |st1.apps| then st1.(apps := AppFree(st1.apps, i)) else st1
  }

  /** `nsfreq_app_classify`: no identity, no verdict. */
  function Classified(a: App, classify: (nat, nat) -> Verdict): Verdict {
    if a.ascb == 0 then NoIdentity else classify(a.ascb, a.asid)
  }

  function SweepOne(st: Stack, classify: (nat, nat) -> Verdict, i: nat): Stack {
    if i < |st.apps| && st.apps[i].inuse && Classified(st.apps[i], classify) == Dead then Reclaim(st, i) else st
  }

  function SweepFrom(st: Stack, classify: (nat, nat) -> Verdict, i: nat): Stack
    decreases APP_MAX - i
  {
    if i >= APP_MAX then st else SweepFrom(SweepOne(st, classify, i), classify, i + 1)
  }

  lemma SweepSplits(st: Stack, classify: (nat, nat) -> Verdict, i: nat)
    requires i < APP_MAX
    ensures SweepFrom(st, classify, i) == SweepFrom(SweepOne(st, classify, i), classify, i + 1)
  {
  }

  lemma SweepEnds(st: Stack, classify: (nat, nat) -> Verdict, i: nat)
    requires i >= APP_MAX
    ensures SweepFrom(st, classify, i) == st
  {
  }

  /** `nsfreq_app_sweep`: a sweep that is not due does not look. */
  function Sweep(st: Stack, classify: (nat, nat) -> Verdict, due: bool): Stack {
    if due then SweepFrom(st, classify, 0) else st
  }

  // ---- creating ----------------------------------------------------------------------------------------------------

  /** The lowest free socket slot, or the table size. */
  function FreeSlot(tab: seq<SockSlot>, i: nat): (r: nat)
    requires i <= |tab|
    ensures i <= r <= |tab| && (r < |tab| ==> tab[r].sock.None?)
    ensures forall j :: i <= j < r ==> tab[j].sock.Some?
    decreases |tab| - i
  {
    if i == |tab| || tab[i].sock.None? then i else FreeSlot(tab, i + 1)
  }

  function FreeApp(apps: seq<App>, i: nat): (r: nat)
    requires i <= |apps|
    ensures i <= r <= |apps| && (r < |apps| ==> !apps[r].inuse)
    ensures forall j :: i <= j < r ==> apps[j].inuse
    decreases |apps| - i
  {
    if i == |apps| || !apps[i].inuse then i else FreeApp(apps, i + 1)
  }

  function FreeSel(sels: seq<Option<Sel>>, n: nat): (r: nat)
    requires n <= |sels|
    ensures n <= r <= |sels| && (r < |sels| ==> sels[r].None?)
    ensures forall j :: n <= j < r ==> sels[j].Some?
    decreases |sels| - n
  {
    if n == |sels| || sels[n].None? then n else FreeSel(sels, n + 1)
  }

  const NO_PENDS: Pends := Pends(None, None, None, None)

  /** `soc_create`: a fresh socket in the lowest free slot, or none; a failed attach goes through the
      one teardown path. */
  function Create(st: Stack, apptok: nat, attaches: bool, parent: Option<nat>): (Stack, Option<nat>) {
    var i := FreeSlot(st.tab, 0);
    if i == |st.tab| then (st, None)
    else
      var st1 := st.(tab := st.tab[i := st.tab[i].(sock := Some(Sock(apptok, NO_PENDS, Bits(false, false), parent)))]);
      if attaches then (st1, Some(i)) else (Destroy(st1, i), None)
  }

  // ---- the verb handlers ---------------------------------------------------------------------------------------------

  function DoInitApi(st: Stack, rid: Rid, ascb: nat, asid: nat, classify: (nat, nat) -> Verdict, due: bool): Stack {
    var st1 := if FreeApp(st.apps, 0) == |st.apps| then Sweep(st, classify, due) else st;
    var i := FreeApp(st1.apps, 0);
    if i == |st1.apps| then Complete(st1, rid, RETERR, EMFILE, [])
    else Complete(st1.(apps := st1.apps[i := App(true, st1.apps[i].gen, ascb, asid)]), rid, RETOK, 0, [])
  }

  function DoTermApi(st: Stack, rid: Rid, token: nat): Stack {
    var i := AppIndex(st.apps, token);
    if i.None? then Complete(st, rid, RETERR, EINVAL, [])
    else Complete(Reclaim(st, i.value), rid, RETOK, 0, [])
  }

  function DoSocket(st: Stack, rid: Rid, token: nat, known: bool, attaches: bool): Stack {
    if AppIndex(st.apps, token).None? then Complete(st, rid, RETERR, EINVAL, [])
    else if !known then Complete(st, rid, RETERR, EPROTONOSUPPORT, [])
    else
      var (st1, i) := Create(st, token, attaches, None);
      if i.None? || i.value >= |st1.tab| then Complete(st1, rid, RETERR, EMFILE, [])
      else Complete(st1, rid, AsInt(Desc(st1.tab[i.value].gen, i.value)), 0, [])
  }

  function DoClose(st: Stack, rid: Rid, i: nat, op: CloseResult): Stack {
    match op
    case NotOwned => Complete(Destroy(st, i), rid, RETOK, 0, [])
    case Owned(destroys) =>
      var st1 := Complete(st, rid, RETOK, 0, []);
      if destroys then Destroy(st1, i) else st1
  }

  function DoDelegate(st: Stack, rid: Rid, i: nat, op: OpResult): Stack
    requires i < |st.tab| && st.tab[i].sock.Some?
  {
    match op
    case Completes(retcode, errno) => Complete(st, rid, retcode, errno, [])
    case Refuses(err) => Complete(st, rid, RETERR, err, [])
    case Parks(k) =>
      var (st1, rc) := Park(st, rid, i, k);
      if rc != 0 then Complete(st1, rid, RETERR, rc, []) else st1
  }

  function DoSockOp(st: Stack, rid: Rid, i: nat, op: SockOp): Stack
    requires i < |st.tab| && st.tab[i].sock.Some?
  {
    match op
    case Local(retcode, errno) => Complete(st, rid, retcode, errno, [])
    case Close(close) => DoClose(st, rid, i, close)
    case Delegate(result) => DoDelegate(st, rid, i, result)
  }

  function DoSelect(st: Stack, rid: Rid, items: seq<Item>, whole: bool, timed: bool, zero: bool, ascb: nat, asid: nat): Stack {
    var st1 := st.(sockdesc := st.sockdesc[rid := 0]);
    if !whole then Complete(st1, rid, RETERR, EINVAL, [])
    else
      var scanned := Scanned(st.tab, st.apps, items, ascb, asid);
      if CountReady(scanned) > 0 then Complete(st1, rid, CountReady(scanned), 0, scanned)
      else if timed && zero then Complete(st1, rid, 0, 0, scanned)
      else
        var n := FreeSel(st.sels, 0);
        if n == |st.sels| then Complete(st1, rid, RETERR, EMFILE, scanned)
        else st1.(sels := st.sels[n := Some(Sel(rid, scanned, ascb, asid, timed))], place := st.place[rid := InSel(n)])
  }

  /** `nsfreq_dispatch_id`: one request, in hand, to its handler. */
  function Handle(st: Stack, q: Request, ascb: nat, asid: nat, classify: (nat, nat) -> Verdict, due: bool): Stack {
    var token := if q.verb.InitApi? then q.apptok else Authenticate(st.apps, q.apptok, ascb, asid);
    match q.verb
    case InitApi => DoInitApi(st, q.rid, ascb, asid, classify, due)
    case TermApi => DoTermApi(st, q.rid, token)
    case Socket(known, attaches) => DoSocket(st, q.rid, token, known, attaches)
    case Select(items, whole, timed, zero) => DoSelect(st, q.rid, items, whole, timed, zero, ascb, asid)
    case Unknown => Complete(st, q.rid, RETERR, EINVAL, [])
    case OnSocket(op) =>
      var i := SockOwned(st.tab, st.apps, q.desc, ascb, asid);
      if i.None? then Complete(st, q.rid, RETERR, EBADF, []) else DoSockOp(st, q.rid, i.value, op)
  }

  // ---- actions ------------------------------------------------------------------------------------------------------------

  datatype Action =
    | Submit(q: Request)
    | Dispatch(ascb: nat, asid: nat, classify: (nat, nat) -> Verdict, due: bool)   // the head of the queue
    | SweepNow(classify: (nat, nat) -> Verdict, due: bool)
    | Finish(i: nat, k: Kind, retcode: int, errno: int)  // the protocol completes a parked request
    | Becomes(i: nat, ready: Bits)                       // a socket's readiness changes
    | Notify                                             // ... and the protocol pokes SELECT
    | Reset(i: nat)                                      // the protocol destroys a socket
    | Timeout(n: nat)                                    // a SELECT's timer fires
    | PassiveOpen(i: nat, attaches: bool)                // a child socket under listener `i`
    | Accepted(j: nat)                                   // child `j` handed to an ACCEPT

  predicate Enabled(st: Stack, a: Action) {
    match a
    case Submit(q) => q.rid !in st.place && q.desc < WORD && q.apptok < WORD
    case Dispatch(_, _, _, _) => st.queue != []
    case Finish(i, k, _, _) => i < |st.tab| && st.tab[i].sock.Some? && GetPend(st.tab[i].sock.value.pends, k).Some?
    case Becomes(i, _) => i < |st.tab| && st.tab[i].sock.Some?
    case Reset(i) => i < |st.tab| && st.tab[i].sock.Some?
    case Timeout(n) => n < |st.sels| && st.sels[n].Some? && st.sels[n].value.timed
    case PassiveOpen(i, _) => i < |st.tab| && st.tab[i].sock.Some? && st.tab[i].sock.value.parent.None?
    case Accepted(j) => j < |st.tab| && st.tab[j].sock.Some? && st.tab[j].sock.value.parent.Some?
    case _ => true
  }

  function WithSock(tab: seq<SockSlot>, i: nat, s: Sock): seq<SockSlot>
    requires i < |tab|
  {
    tab[i := tab[i].(sock := Some(s))]
  }

  function Step(st: Stack, a: Action): Stack
    requires Enabled(st, a)
  {
    match a
    case Submit(q) =>
      st.(queue := st.queue + [q], sockdesc := st.sockdesc[q.rid := q.desc], place := st.place[q.rid := Queued])
    case Dispatch(ascb, asid, classify, due) =>
      var q := st.queue[0];
      Handle(st.(queue := st.queue[1..], place := st.place[q.rid := InHand]), q, ascb, asid, classify, due)
    case SweepNow(classify, due) => Sweep(st, classify, due)
    case Finish(i, k, retcode, errno) => Complete(st, GetPend(st.tab[i].sock.value.pends, k).value, retcode, errno, [])
    case Becomes(i, ready) => st.(tab := WithSock(st.tab, i, st.tab[i].sock.value.(ready := ready)))
    case Notify => Poke(st)
    case Reset(i) => Destroy(st, i)
    case Timeout(n) => SelFinish(st, n, 0, 0, Unready(st.sels[n].value.items))
    case PassiveOpen(i, attaches) => Create(st, st.tab[i].sock.value.apptok, attaches, Some(i)).0
    case Accepted(j) => st.(tab := WithSock(st.tab, j, st.tab[j].sock.value.(parent := None)))
  }

  /** `soc_init` and `nsfreq_init`. */
  ghost predicate Initial(st: Stack) {
    && 0 < |st.tab| <= SOC_MAX && (forall i :: 0 <= i < |st.tab| ==> st.tab[i] == SockSlot(None, 1, 0))
    && |st.apps| == APP_MAX && (forall i :: 0 <= i < |st.apps| ==> st.apps[i] == App(false, 1, 0, 0))
    && |st.sels| == SEL_MAX && (forall n :: 0 <= n < |st.sels| ==> st.sels[n] == None)
    && st.queue == [] && st.sockdesc == map[] && st.place == map[] && st.log == []
  }
}
