/** The cross-address-space slot pool as a transition system: clients inside the SVC routine
    (asm/nsfvsvc.asm), the server's drain, reap, quiesce, re-stamp and adoption scrub (src/nsfsx.c), with
    the decisions of src/nsfreqx.c. Every shared access is one step: a client's compare-and-swap claim,
    its recording, counting in, staging and publishing, its wake-up, release and counting out; the
    server's look at a slot, its compare-and-swap, clear, store and POST, and the load and the store of
    its decrement of the in-flight count, which is no compare-and-swap. */
module SlotPool {
  import opened Options
  import opened Bytes
  import opened SlotRules

  /** Where a client task is inside the routine; `i` is the slot it believes it owns. */
  datatype Pc =
    | Out
    | Scan(k: nat)        // past the ACTIVE test, walking the pool
    | Took(i: nat)        // claim succeeded
    | Named(i: nat)       // identity recorded
    | Counted(i: nat)     // counted in flight
    | Ready(i: nat)       // request staged, reply ECB cleared
    | Posting(i: nat)     // published
    | Waiting(i: nat)     // in WAIT on the reply ECB
    | Bail(i: nat)        // woken, not served: about to release
    | Leave(i: nat)       // served: about to read out and release
    | Back                // released: about to give the in-flight count back

  datatype Client = Client(alive: bool, ascb: nat, asid: nat, pc: Pc, sent: Octets, got: Octets)

  datatype Slot = Slot(state: SlotState, ascb: nat, asid: nat, data: Octets, ecb: bool, guard: bool)

  datatype ServerPc =
    | Idle
    | Look(k: nat)                            // the drain's selector
    | Act(i: nat, act: SlotAct)               // decided, not yet done
    | Finish(i: nat, verdict: Verdict)        // result copied out, client re-checked
    | Reply(i: nat)                           // DONE stored, POST to come
    | Clear(i: nat) | Release(i: nat)         // a reap, after its compare-and-swap
    | Tally | Debit(n: nat)                   // ... released: the in-flight count, to load and to store
    | Scrub                                   // the adoption scrub, at slot `next`
    | Adopt(i: nat, st: SlotState, plan: AdoptAct)
    | Nudge(i: nat)                           // the scrub's POST

  datatype Mode = Adopting | Up | Stopping

  datatype Server = Server(
    mode: Mode, pc: ServerPc, next: nat,
    busy: Option<nat>, land: Octets,          // the request in service, and its private copy
    ptr: bool,                                // the published wake-ECB address is the server's own
    asvt: Asvt,
    served: set<(Octets, Octets)>)            // requests completed, each with its result

  /** `inflight` is the anchor's count of the clients inside the routine. */
  datatype Sys = Sys(slots: seq<Slot>, clients: seq<Client>, v: Server, inflight: nat)

  datatype Action =
    | ClientStep(c: nat, request: Octets)
    | PostFails(c: nat)                       // the server's address space is going away
    | ServerStep
    | Completes(result: Octets)               // the request in service is done: copy its result out
    | Stop | Wake(i: nat)                     // quiesce: clear ACTIVE, then nudge live clients
    | Restamp                                 // a later instance finds the retained pool and takes it over
    | Overrun(i: nat)                         // a stray store clobbers a slot's guard word
    | Dies(c: nat) | Born(c: nat, ascb: nat, asid: nat) | AsvtMoves(k: nat, entry: nat)

  function SlotOf(pc: Pc): Option<nat> {
    match pc
    case Out => None
    case Scan(_) => None
    case Back => None
    case Took(i) => Some(i) case Named(i) => Some(i) case Counted(i) => Some(i) case Ready(i) => Some(i)
    case Posting(i) => Some(i) case Waiting(i) => Some(i) case Bail(i) => Some(i) case Leave(i) => Some(i)
  }

  // ---- steps ---------------------------------------------------------------------------------------

  predicate ClientEnabled(s: Sys, c: nat) {
    && c < |s.clients| && s.clients[c].alive
    && (SlotOf(s.clients[c].pc).Some? ==> SlotOf(s.clients[c].pc).value < |s.slots|)
    && (s.clients[c].pc.Out? ==> s.v.mode.Up?)
    && (s.clients[c].pc.Waiting? ==> s.slots[s.clients[c].pc.i].ecb)
  }

  /** The client's own next step: its new self, and the slot it writes, if any. */
  function ClientMove(s: Sys, c: nat, request: Octets): (r: (Client, Option<(nat, Slot)>))
    requires ClientEnabled(s, c)
    ensures r.1.Some? ==> r.1.value.0 < |s.slots|
  {
    var me := s.clients[c];
    match me.pc
    case Out => (me.(pc := Scan(0)), None)
    case Scan(k) =>
      if k >= |s.slots| then (me.(pc := Out), None)
      else if s.slots[k].state == Free then (me.(pc := Took(k)), Some((k, s.slots[k].(state := Claimed))))
      else (me.(pc := Scan(k + 1)), None)
    case Took(i) => (me.(pc := Named(i)), Some((i, s.slots[i].(ascb := me.ascb, asid := me.asid))))
    case Named(i) => (me.(pc := Counted(i)), None)
    case Counted(i) => (me.(pc := Ready(i), sent := request), Some((i, s.slots[i].(data := request, ecb := false))))
    case Ready(i) => (me.(pc := Posting(i)), Some((i, s.slots[i].(state := Pending))))
    case Posting(i) => (me.(pc := Waiting(i)), None)
    case Waiting(i) => (me.(pc := if s.slots[i].state == Done then Leave(i) else Bail(i)), None)
    case Bail(i) => (me.(pc := Back), Some((i, s.slots[i].(state := Free))))
    case Leave(i) => (me.(pc := Back, got := s.slots[i].data), Some((i, s.slots[i].(state := Free))))
    case Back => (me.(pc := Out), None)
  }

  /** One taken off a count that nobody guards. */
  function Less(n: nat): nat { if n == 0 then WORD - 1 else n - 1 }

  /** What a client's step does to the in-flight count: one compare-and-swap in, one out. */
  function CountedBy(pc: Pc, n: nat): nat {
    match pc case Named(_) => n + 1 case Back => Less(n) case _ => n
  }

  function Put(slots: seq<Slot>, w: Option<(nat, Slot)>): (r: seq<Slot>)
    requires w.Some? ==> w.value.0 < |slots|
    ensures |r| == |slots|
  {
    if w.Some? then slots[w.value.0 := w.value.1] else slots
  }

  predicate ServerEnabled(s: Sys) {
    match s.v.pc
    case Idle => s.v.mode.Up?
    case Look(_) => true
    case Scrub => true
    case Act(i, act) => i < |s.slots| && act != NoAct
    case Finish(i, _) => i < |s.slots|
    case Reply(i) => i < |s.slots|
    case Clear(i) => i < |s.slots|
    case Release(i) => i < |s.slots|
    case Tally => true
    case Debit(_) => true
    case Adopt(i, _, plan) => i < |s.slots| && plan != AdoptNone
    case Nudge(i) => i < |s.slots|
  }

  function Ident(sl: Slot, asvt: Asvt): Verdict {
    Classify(sl.ascb, sl.asid, asvt)
  }

  /** Compare-and-swap `from` to CLAIMED at the head of a reap; a failed compare changes nothing. */
  function TakeOver(v: Server, i: nat, sl: Slot, from: SlotState, otherwise: Server): (Server, Option<(nat, Slot)>) {
    if sl.state == from then (v.(pc := Clear(i)), Some((i, sl.(state := Claimed))))
    else (otherwise, None)
  }

  /** Where a reap goes back to. */
  function Reaped(v: Server): Server {
    if v.mode.Adopting? then v.(pc := Scrub, next := v.next + 1) else v.(pc := Idle)
  }

  /** The server's next step: its new self, and the slot it writes, if any. */
  function ServerMove(s: Sys): (r: (Server, Option<(nat, Slot)>))
    requires ServerEnabled(s)
    ensures r.1.Some? ==> r.1.value.0 < |s.slots|
  {
    var v := s.v;
    match v.pc
    case Idle => (v.(pc := Look(0)), None)
    case Look(k) =>
      if k >= |s.slots| then (v.(pc := Idle), None)
      else
        var sl := s.slots[k];
        var act := SlotAction(sl.state, Ident(sl, v.asvt), sl.guard, v.ptr);
        if sl.state != Pending || v.busy == Some(k) || !Actionable(act, v.busy.Some?) then (v.(pc := Look(k + 1)), None)
        else (v.(pc := Act(k, act)), None)
    case Act(i, act) =>
      if act == Hold then (v.(pc := Idle), Some((i, s.slots[i].(state := Held))))
      else if act == Dispatch then
        (if v.busy.Some? then v.(pc := Idle) else v.(pc := Idle, busy := Some(i), land := s.slots[i].data), None)
      else TakeOver(v, i, s.slots[i], Pending, v.(pc := Idle))
    case Finish(i, verdict) =>
      if verdict == Dead then TakeOver(v.(busy := None), i, s.slots[i], Pending, v.(pc := Idle, busy := None))
      else if verdict == Unknown then (v.(pc := Idle, busy := None), Some((i, s.slots[i].(state := Held))))
      else (v.(pc := Reply(i)), Some((i, s.slots[i].(state := Done))))
    case Reply(i) => (v.(pc := Idle, busy := None), Some((i, s.slots[i].(ecb := true))))
    case Clear(i) => (v.(pc := Release(i)), Some((i, s.slots[i].(data := [], ascb := 0, asid := 0))))
    case Release(i) => (v.(pc := Tally), Some((i, s.slots[i].(state := Free))))
    case Tally => (if s.inflight == 0 then Reaped(v) else v.(pc := Debit(s.inflight)), None)
    case Debit(_) => (Reaped(v), None)
    case Scrub =>
      if v.next >= |s.slots| then (v.(mode := Up, pc := Idle), None)
      else
        var sl := s.slots[v.next];
        var act := AdoptAction(sl.state, Ident(sl, v.asvt), sl.guard && v.ptr);
        if act == AdoptNone then (v.(next := v.next + 1), None)
        else (v.(pc := Adopt(v.next, sl.state, act)), None)
    case Adopt(i, st, plan) =>
      if plan == AdoptReap then TakeOver(v, i, s.slots[i], st, v.(pc := Scrub, next := v.next + 1))
      else if s.slots[i].state == st then (v.(pc := Nudge(i)), Some((i, s.slots[i].(state := Held))))
      else if st == Held then (v.(pc := Nudge(i)), None)
      else (v.(pc := Scrub, next := v.next + 1), None)
    case Nudge(i) => (v.(pc := Scrub, next := v.next + 1), Some((i, s.slots[i].(ecb := true))))
  }

  /** The re-stamp of an adopting start: the slots, the clients and the count are as it finds them. */
  function Restamped(v: Server): Server {
    v.(mode := Adopting, pc := Scrub, next := 0, busy := None, ptr := true)
  }

  predicate Enabled(s: Sys, a: Action) {
    match a
    case ClientStep(c, _) => ClientEnabled(s, c)
    case PostFails(c) => c < |s.clients| && s.clients[c].alive && s.clients[c].pc.Posting? && s.v.mode.Stopping?
    case ServerStep => ServerEnabled(s)
    case Completes(_) => s.v.mode.Up? && s.v.pc.Idle? && s.v.busy.Some? && s.v.busy.value < |s.slots|
    case Stop => s.v.mode.Up? && s.v.pc.Idle?
    case Restamp => s.v.mode.Stopping? && s.v.pc.Idle?
    case Wake(i) => s.v.mode.Stopping? && i < |s.slots| && s.slots[i].state != Free && Ident(s.slots[i], s.v.asvt) == Live
    case Overrun(i) => i < |s.slots|
    case Dies(c) => c < |s.clients|
    case Born(c, ascb, asid) =>
      && c < |s.clients| && !s.clients[c].alive && 0 < ascb < ASVT_AVAIL
      && (0 < asid <= |s.v.asvt| ==> s.v.asvt[asid - 1] == ascb)
    case AsvtMoves(k, entry) =>
      && k < |s.v.asvt|
      && forall c :: 0 <= c < |s.clients| && s.clients[c].alive ==> s.clients[c].asid != k + 1
  }

  function Step(s: Sys, a: Action): (t: Sys)
    requires Enabled(s, a)
    ensures |t.slots| == |s.slots| && |t.clients| == |s.clients|
  {
    match a
    case ClientStep(c, request) =>
      var (me, w) := ClientMove(s, c, request);
      s.(clients := s.clients[c := me], slots := Put(s.slots, w), inflight := CountedBy(s.clients[c].pc, s.inflight))
    case PostFails(c) => s.(clients := s.clients[c := s.clients[c].(pc := Bail(s.clients[c].pc.i))])
    case ServerStep =>
      var (v, w) := ServerMove(s);
      s.(v := v, slots := Put(s.slots, w), inflight := if s.v.pc.Debit? then Less(s.v.pc.n) else s.inflight)
    case Completes(result) =>
      var i := s.v.busy.value;
      s.(v := s.v.(pc := Finish(i, Ident(s.slots[i], s.v.asvt)), served := s.v.served + {(s.v.land, result)}),
         slots := s.slots[i := s.slots[i].(data := result)])
    case Stop => s.(v := s.v.(mode := Stopping, busy := None, ptr := false))
    case Restamp => s.(v := Restamped(s.v))
    case Wake(i) => s.(slots := s.slots[i := s.slots[i].(ecb := true)])
    case Overrun(i) => s.(slots := s.slots[i := s.slots[i].(guard := false)])
    case Dies(c) => s.(clients := s.clients[c := s.clients[c].(alive := false)])
    case Born(c, ascb, asid) => s.(clients := s.clients[c := Client(true, ascb, asid, Out, [], [])])
    case AsvtMoves(k, entry) => s.(v := s.v.(asvt := s.v.asvt[k := entry]))
  }
}
