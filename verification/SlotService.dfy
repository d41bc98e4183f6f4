/** What the slot pool's clients get: every DONE is posted, every published request can be served, and what
    its client reads is the result the request was completed with. */
module SlotService {
  import opened Options
  import opened Bytes
  import opened SlotRules
  import opened SlotPool
  import opened SlotSafety
  import opened SlotTheorems
  import opened SlotLoss

  // ---- no reply without its POST -------------------------------------------------------------------------

  /** A slot in DONE has been posted, or the server stands between storing DONE and the POST. */
  ghost predicate Posted(s: Sys) {
    forall i :: 0 <= i < |s.slots| && s.slots[i].state == SlotState.Done ==> s.slots[i].ecb || s.v.pc == Reply(i)
  }

  lemma ClientPosted(s: Sys, c: nat, request: Octets)
    requires Inv(s) && Posted(s) && ClientEnabled(s, c)
    ensures Posted(Step(s, ClientStep(c, request)))
  {
    assert ClientOk(s, c);
  }

  lemma ServerPosted(s: Sys)
    requires Inv(s) && Posted(s) && ServerEnabled(s)
    ensures Posted(Step(s, ServerStep))
  {
  }

  lemma StepPosted(s: Sys, a: Action)
    requires Inv(s) && Posted(s) && Enabled(s, a)
    ensures Posted(Step(s, a))
  {
    match a {
      case ClientStep(c, request) => ClientPosted(s, c, request);
      case ServerStep => ServerPosted(s);
      case _ =>
    }
  }

  lemma {:induction false} RunPosted(ss: seq<Sys>, acts: seq<Action>, n: nat)
    requires SoundRun(ss, acts) && n <= |acts|
    ensures Posted(ss[n])
  {
    if n > 0 {
      RunPosted(ss, acts, n - 1);
      RunKeeps(ss, acts, n - 1);
      StepPosted(ss[n - 1], acts[n - 1]);
    }
  }

  /** On every sound run, whatever stops and takes over: where DONE stands its ECB is posted, or the server is
      about to post it. A client that waits there can go on, or the server can, and then the client. */
  lemma DoneIsPosted(ss: seq<Sys>, acts: seq<Action>, n: nat, c: nat, i: nat)
    requires SoundRun(ss, acts) && n <= |acts| && i < |ss[n].slots| && ss[n].slots[i].state == SlotState.Done
    ensures ss[n].slots[i].ecb || (ss[n].v.pc == Reply(i) && Enabled(ss[n], ServerStep) && Step(ss[n], ServerStep).slots[i].ecb)
    ensures c < |ss[n].clients| && ss[n].clients[c].alive && ss[n].clients[c].pc == Waiting(i) ==>
      Enabled(if ss[n].slots[i].ecb then ss[n] else Step(ss[n], ServerStep), ClientStep(c, []))
  {
    RunPosted(ss, acts, n);
  }

  // ---- the request in service ----------------------------------------------------------------------------

  /** The server, the executive and this one client at work: nobody dies, nothing stops, no guard is overrun. */
  predicate WorksFor(acts: seq<Action>, c: nat) {
    forall k :: 0 <= k < |acts| ==> acts[k].ServerStep? || acts[k].Completes? || (acts[k].ClientStep? && acts[k].c == c)
  }

  lemma WorksJoin(acts: seq<Action>, more: seq<Action>, c: nat)
    requires WorksFor(acts, c) && WorksFor(more, c)
    ensures WorksFor(acts + more, c)
  {
  }

  predicate Serving(s: Sys, i: nat, c: nat) {
    && s.v.mode.Up? && s.v.pc.Idle? && s.v.busy == Some(i) && i < |s.slots| && Ident(s.slots[i], s.v.asvt) == Live
    && c < |s.clients| && s.clients[c].alive && s.clients[c].pc == Waiting(i)
  }

  /** The client has its result and has given the slot back. */
  predicate Has(t: Sys, i: nat, c: nat, r: Octets) {
    c < |t.clients| && t.clients[c].got == r && t.clients[c].pc.Back? && i < |t.slots| && t.slots[i].state == Free
  }

  lemma Replies(s: Sys, i: nat, c: nat, r: Octets) returns (ss: seq<Sys>, acts: seq<Action>, t: Sys)
    requires Serving(s, i, c)
    ensures Path(ss, acts, s, t) && acts == [Completes(r), ServerStep, ServerStep] && t.clients == s.clients
    ensures |t.slots| == |s.slots| && t.slots[i] == s.slots[i].(state := SlotState.Done, data := r, ecb := true)
    ensures t.v.mode.Up? && t.v.pc.Idle? && t.v.busy.None?
  {
    ss, acts := [s], [];
    ss, acts := Go(ss, acts, s, s, Completes(r));
    var a := Step(s, Completes(r));
    ss, acts := Go(ss, acts, s, a, ServerStep);
    var b := Step(a, ServerStep);
    ss, acts := Go(ss, acts, s, b, ServerStep);
    t := Step(b, ServerStep);
  }

  lemma ReadsOut(s: Sys, i: nat, c: nat) returns (ss: seq<Sys>, acts: seq<Action>, t: Sys)
    requires i < |s.slots| && s.slots[i].state == SlotState.Done && s.slots[i].ecb
    requires c < |s.clients| && s.clients[c].alive && s.clients[c].pc == Waiting(i)
    ensures Path(ss, acts, s, t) && acts == [ClientStep(c, []), ClientStep(c, [])] && Has(t, i, c, s.slots[i].data) && t.clients[c].sent == s.clients[c].sent
  {
    ss, acts := [s], [];
    ss, acts := Go(ss, acts, s, s, ClientStep(c, []));
    var a := Step(s, ClientStep(c, []));
    ss, acts := Go(ss, acts, s, a, ClientStep(c, []));
    t := Step(a, ClientStep(c, []));
  }

  lemma Finishes(s: Sys, i: nat, c: nat, r: Octets) returns (ss: seq<Sys>, acts: seq<Action>, t: Sys)
    requires Serving(s, i, c)
    ensures Path(ss, acts, s, t) && acts == [Completes(r), ServerStep, ServerStep, ClientStep(c, []), ClientStep(c, [])] && WorksFor(acts, c)
    ensures Has(t, i, c, r) && t.clients[c].sent == s.clients[c].sent
  {
    var a, tt, more;
    ss, acts, a := Replies(s, i, c, r);
    tt, more, t := ReadsOut(a, i, c);
    ss, acts := Join(ss, acts, tt, more, s, a, t);
  }

  lemma InServiceServing(s: Sys, i: nat, c: nat)
    requires Inv(s) && s.v.mode.Up? && s.v.pc.Idle? && s.v.busy == Some(i)
    requires c < |s.clients| && s.clients[c].alive && s.clients[c].pc == Waiting(i) && Checkable(s.clients[c].ascb, s.clients[c].asid, s.v.asvt)
    ensures Serving(s, i, c)
  {
    KnownLive(s, i, c);
  }

  /** From any state of a sound run with the server up and idle: whatever the request in service is completed
      with, its client, waiting and identifiable, gets, by two steps of the server and two of its own. */
  lemma ResultArrives(ss: seq<Sys>, acts: seq<Action>, c: nat, i: nat, r: Octets) returns (tt: seq<Sys>, more: seq<Action>)
    requires SoundRun(ss, acts)
    requires ss[|acts|].v.mode.Up? && ss[|acts|].v.pc.Idle? && ss[|acts|].v.busy == Some(i)
    requires var s := ss[|acts|]; c < |s.clients| && s.clients[c].alive && s.clients[c].pc == Waiting(i) && Checkable(s.clients[c].ascb, s.clients[c].asid, s.v.asvt)
    ensures Run(tt, more) && tt[0] == ss[|acts|] && more == [Completes(r), ServerStep, ServerStep, ClientStep(c, []), ClientStep(c, [])]
    ensures var t := tt[|more|]; c < |t.clients| && t.clients[c].got == r && t.clients[c].pc.Back? && i < |t.slots| && t.slots[i].state == Free
  {
    RunKeeps(ss, acts, |acts|);
    var s := ss[|acts|];
    InServiceServing(s, i, c);
    var t;
    tt, more, t := Finishes(s, i, c, r);
  }

  // ---- from publication to service ---------------------------------------------------------------------------

  /** Only the server moves, and the executive completes what it has in service. */
  predicate ByService(acts: seq<Action>) { forall k :: 0 <= k < |acts| ==> acts[k].ServerStep? || acts[k].Completes? }

  /** The request of another slot is completed, and the server idle again. */
  lemma FinishesOther(s: Sys, j: nat, i: nat) returns (ss: seq<Sys>, acts: seq<Action>, t: Sys)
    requires s.v.mode.Up? && s.v.pc.Idle? && s.v.busy == Some(j) && j < |s.slots| && i < |s.slots| && i != j
    ensures Path(ss, acts, s, t) && ByService(acts) && t.clients == s.clients && t.v.pc.Idle? && t.v.busy.None?
    ensures |t.slots| == |s.slots| && t.slots == s.slots[j := t.slots[j]] && t.slots[j].state != Pending
    ensures t.v.mode == s.v.mode && t.v.asvt == s.v.asvt && t.v.ptr == s.v.ptr
  {
    ss, acts := [s], [];
    ss, acts := Go(ss, acts, s, s, Completes([]));
    var a := Step(s, Completes([]));
    ss, acts := Go(ss, acts, s, a, ServerStep);
    t := Step(a, ServerStep);
    if t.v.pc.Reply? {
      ss, acts := Go(ss, acts, s, t, ServerStep);
      t := Step(t, ServerStep);
    } else if t.v.pc.Clear? {
      var tt, more, u := ReapRun(t, j);
      ss, acts := Join(ss, acts, tt, more, s, t, u);
      t := u;
    }
  }

  lemma {:induction false} DueOther(s: seq<Slot>, t: seq<Slot>, j: nat, n: nat)
    requires n <= |s| == |t| && j < |s| && t == s[j := t[j]] && t[j].state != Pending
    ensures Due(t, None, n) <= Due(s, Some(j), n)
  {
    if n > 0 { DueOther(s, t, j, n - 1); }
  }

  /** With another request in service, the drain passes the rest of the pool and leaves slot `i` alone. */
  lemma {:induction false} DrainEnds(s: Sys, k: nat, i: nat) returns (ss: seq<Sys>, acts: seq<Action>, t: Sys)
    requires s.v.mode.Up? && s.v.pc == Look(k) && i <= k && i < |s.slots| && s.v.busy.Some?
    requires k == i ==> !Step(s, ServerStep).v.pc.Act?
    ensures Path(ss, acts, s, t) && ByServer(acts) && Spares(s, t, i) && t.v.pc.Idle? && t.v.busy == s.v.busy
    ensures Due(t.slots, t.v.busy, i) <= Due(s.slots, s.v.busy, i)
    decreases |s.slots| - k
  {
    var a := Step(s, ServerStep);
    if a.v.pc.Act? {
      ss, acts, t := ActRun(s, k, i);
      return;
    }
    ss, acts := Go([s], [], s, s, ServerStep);
    t := a;
    if k < |s.slots| {
      var tt, more;
      tt, more, t := DrainEnds(a, k + 1, i);
      ss, acts := Join(ss, acts, tt, more, s, a, t);
    }
  }

  /** A published request the drain would dispatch: its client known to be alive, its storage intact. */
  predicate Served(s: Sys, i: nat) {
    && s.v.mode.Up? && s.v.ptr && i < |s.slots| && s.slots[i].state == Pending && s.slots[i].guard && Ident(s.slots[i], s.v.asvt) == Live
    && (s.v.busy.Some? ==> s.v.busy.value < |s.slots|)
  }

  lemma ServiceJoin(acts: seq<Action>, more: seq<Action>)
    requires ByService(acts) && ByService(more)
    ensures ByService(acts + more)
  {
  }

  /** The drain at slot `i`: taken into service if nothing is, else passed over. */
  lemma DrainAt(s: Sys, i: nat) returns (ss: seq<Sys>, acts: seq<Action>, t: Sys)
    requires Served(s, i) && s.v.pc == Look(i) && s.v.busy != Some(i)
    ensures Path(ss, acts, s, t) && ByService(acts) && t.clients == s.clients && Served(t, i) && t.slots[i] == s.slots[i] && t.v.pc.Idle?
    ensures t.v.asvt == s.v.asvt
    ensures s.v.busy.None? ==> t.v.busy == Some(i)
    ensures s.v.busy.Some? ==> t.v.busy == s.v.busy && |t.slots| == |s.slots| && Due(t.slots, t.v.busy, i) <= Due(s.slots, s.v.busy, i)
  {
    var a := Step(s, ServerStep);
    if s.v.busy.Some? {
      ss, acts, t := DrainEnds(s, i, i);
    } else {
      assert a.v.pc == Act(i, Dispatch);
      ss, acts := Go([s], [], s, s, ServerStep);
      ss, acts := Go(ss, acts, s, a, ServerStep);
      t := Step(a, ServerStep);
    }
  }

  /** Whatever else is published and in service, the drain comes to dispatch the request. */
  lemma {:induction false} Dispatched(s: Sys, i: nat) returns (ss: seq<Sys>, acts: seq<Action>, t: Sys)
    requires Served(s, i) && s.v.pc.Idle?
    ensures Path(ss, acts, s, t) && ByService(acts) && t.clients == s.clients && Served(t, i) && t.slots[i] == s.slots[i]
    ensures t.v.pc.Idle? && t.v.busy == Some(i) && t.v.asvt == s.v.asvt
    decreases Due(s.slots, s.v.busy, i), if s.v.busy.Some? then 1 else 0
  {
    if s.v.busy == Some(i) {
      return [s], [], s;
    }
    var a;
    if s.v.busy.Some? {
      ss, acts, a := FinishesOther(s, s.v.busy.value, i);
      DueOther(s.slots, a.slots, s.v.busy.value, i);
    } else {
      ss, acts, a := DrainReaches(s, i);
      var tt, more, b := DrainAt(a, i);
      ss, acts := Join(ss, acts, tt, more, s, a, b);
      if a.v.busy.None? {
        return ss, acts, b;
      }
      a := b;
    }
    var tt, more;
    tt, more, t := Dispatched(a, i);
    ServiceJoin(acts, more);
    ss, acts := Join(ss, acts, tt, more, s, a, t);
  }

  /** A client waiting at a request the drain would dispatch gets whatever the request is completed with. */
  lemma ServedGets(s: Sys, i: nat, c: nat, r: Octets) returns (ss: seq<Sys>, acts: seq<Action>, t: Sys)
    requires Served(s, i) && s.v.pc.Idle? && c < |s.clients| && s.clients[c].alive && s.clients[c].pc == Waiting(i)
    ensures Path(ss, acts, s, t) && WorksFor(acts, c) && Has(t, i, c, r) && t.clients[c].sent == s.clients[c].sent
  {
    var a, tt, more;
    ss, acts, a := Dispatched(s, i);
    tt, more, t := Finishes(a, i, c, r);
    WorksJoin(acts, more, c);
    ss, acts := Join(ss, acts, tt, more, s, a, t);
  }

  lemma PublishedIsServed(s: Sys, i: nat, c: nat)
    requires Inv(s) && s.v.mode.Up? && i < |s.slots| && s.slots[i].state == Pending && s.slots[i].guard
    requires c < |s.clients| && Owns(s.clients[c], i) && Checkable(s.clients[c].ascb, s.clients[c].asid, s.v.asvt)
    ensures Served(s, i)
  {
    KnownLive(s, i, c);
  }

  /** From any state of a sound run with the server up and idle, whatever else is published or in service: a
      waiting, identifiable client's request, its storage intact, can be dispatched and completed, and the
      client then reads out just what it was completed with. */
  lemma RequestServed(ss: seq<Sys>, acts: seq<Action>, c: nat, i: nat, r: Octets) returns (tt: seq<Sys>, more: seq<Action>)
    requires SoundRun(ss, acts) && ss[|acts|].v.mode.Up? && ss[|acts|].v.pc.Idle?
    requires var s := ss[|acts|]; i < |s.slots| && s.slots[i].state == Pending && s.slots[i].guard
    requires var s := ss[|acts|]; c < |s.clients| && s.clients[c].alive && s.clients[c].pc == Waiting(i) && Checkable(s.clients[c].ascb, s.clients[c].asid, s.v.asvt)
    ensures Run(tt, more) && tt[0] == ss[|acts|] && WorksFor(more, c)
    ensures var t := tt[|more|]; c < |t.clients| && t.clients[c].got == r && t.clients[c].pc.Back? && i < |t.slots| && t.slots[i].state == Free
  {
    RunKeeps(ss, acts, |acts|);
    var s := ss[|acts|];
    PublishedIsServed(s, i, c);
    var t;
    tt, more, t := ServedGets(s, i, c, r);
  }

  // ---- from outside to the result ------------------------------------------------------------------------------

  /** The slot published, and its client in WAIT. */
  lemma Publishes(s: Sys, c: nat, i: nat) returns (ss: seq<Sys>, acts: seq<Action>, t: Sys)
    requires i < |s.slots| && c < |s.clients| && s.clients[c].alive && s.clients[c].pc == Ready(i)
    ensures Path(ss, acts, s, t) && WorksFor(acts, c) && t.v == s.v && t.clients == s.clients[c := s.clients[c].(pc := Waiting(i))]
    ensures t.slots == s.slots[i := s.slots[i].(state := Pending)]
  {
    ss, acts := [s], [];
    ss, acts := Go(ss, acts, s, s, ClientStep(c, []));
    var a := Step(s, ClientStep(c, []));
    ss, acts := Go(ss, acts, s, a, ClientStep(c, []));
    t := Step(a, ClientStep(c, []));
  }

  /** From outside the routine to the WAIT. */
  lemma Requests(s: Sys, c: nat, i: nat, request: Octets) returns (ss: seq<Sys>, acts: seq<Action>, t: Sys)
    requires s.v.mode.Up? && i < |s.slots| && s.slots[i].state == Free && (forall j :: 0 <= j < i ==> s.slots[j].state != Free)
    requires c < |s.clients| && s.clients[c].alive && s.clients[c].pc.Out?
    ensures Path(ss, acts, s, t) && WorksFor(acts, c) && t.v == s.v && t.clients == s.clients[c := s.clients[c].(pc := Waiting(i), sent := request)]
    ensures t.slots == s.slots[i := Slot(Pending, s.clients[c].ascb, s.clients[c].asid, request, false, s.slots[i].guard)]
  {
    ss, acts := EnterTo(s, c, i);
    var a := s.(clients := s.clients[c := s.clients[c].(pc := Scan(i))]);
    var tt, more, b := StagesIn(a, c, i, request);
    WorksJoin(acts, more, c);
    ss, acts := Join(ss, acts, tt, more, s, a, b);
    tt, more, t := Publishes(b, c, i);
    WorksJoin(acts, more, c);
    ss, acts := Join(ss, acts, tt, more, s, b, t);
  }

  lemma StagedIsServed(s: Sys, t: Sys, c: nat, i: nat, request: Octets)
    requires Inv(s) && s.v.mode.Up? && i < |s.slots| && s.slots[i].guard && t.v == s.v
    requires c < |s.clients| && s.clients[c].alive && Checkable(s.clients[c].ascb, s.clients[c].asid, s.v.asvt)
    requires t.slots == s.slots[i := Slot(Pending, s.clients[c].ascb, s.clients[c].asid, request, false, s.slots[i].guard)]
    ensures Served(t, i)
  {
    assert ClientOk(s, c);
  }

  /** A whole call: from any state of a sound run with the server up and idle, an identifiable client outside
      the routine, with slot `i` the first that is free, can send any request and get any result it is
      completed with, and the slot is free again. */
  lemma RoundTrip(ss: seq<Sys>, acts: seq<Action>, c: nat, i: nat, request: Octets, r: Octets) returns (tt: seq<Sys>, more: seq<Action>)
    requires SoundRun(ss, acts) && ss[|acts|].v.mode.Up? && ss[|acts|].v.pc.Idle?
    requires var s := ss[|acts|]; i < |s.slots| && s.slots[i].state == Free && s.slots[i].guard && forall j :: 0 <= j < i ==> s.slots[j].state != Free
    requires var s := ss[|acts|]; c < |s.clients| && s.clients[c].alive && s.clients[c].pc.Out? && Checkable(s.clients[c].ascb, s.clients[c].asid, s.v.asvt)
    ensures Run(tt, more) && tt[0] == ss[|acts|] && WorksFor(more, c)
    ensures var t := tt[|more|]; c < |t.clients| && t.clients[c].sent == request && t.clients[c].got == r && t.clients[c].pc.Back?
    ensures var t := tt[|more|]; i < |t.slots| && t.slots[i].state == Free
  {
    RunKeeps(ss, acts, |acts|);
    var s := ss[|acts|];
    var a, uu, rest, t;
    tt, more, a := Requests(s, c, i, request);
    StagedIsServed(s, a, c, i, request);
    uu, rest, t := ServedGets(a, i, c, r);
    WorksJoin(more, rest, c);
    tt, more := Join(tt, more, uu, rest, s, a, t);
  }

  // ---- a stopped server lets its clients go ----------------------------------------------------------------------

  lemma PublishedLive(s: Sys, c: nat, i: nat)
    requires Inv(s) && c < |s.clients| && s.clients[c].alive && s.clients[c].pc == Waiting(i) && Checkable(s.clients[c].ascb, s.clients[c].asid, s.v.asvt)
    ensures i < |s.slots| && s.slots[i].state != Free && Ident(s.slots[i], s.v.asvt) == Live
  {
    assert ClientOk(s, c);
  }

  lemma WokenLeaves(s: Sys, c: nat, i: nat) returns (ss: seq<Sys>, acts: seq<Action>, t: Sys)
    requires i < |s.slots| && s.slots[i].ecb && c < |s.clients| && s.clients[c].alive && s.clients[c].pc == Waiting(i)
    ensures Path(ss, acts, s, t) && acts == [ClientStep(c, []), ClientStep(c, []), ClientStep(c, [])]
    ensures |t.clients| == |s.clients| && t.clients[c].pc.Out? && |t.slots| == |s.slots| && t.slots[i].state == Free
  {
    ss, acts := Go([s], [], s, s, ClientStep(c, []));
    var a := Step(s, ClientStep(c, []));
    ss, acts := Go(ss, acts, s, a, ClientStep(c, []));
    var b := Step(a, ClientStep(c, []));
    ss, acts := Go(ss, acts, s, b, ClientStep(c, []));
    t := Step(b, ClientStep(c, []));
  }

  /** On any sound run: a client that waits when the server has stopped can be woken, if it is identifiable,
      and leaves the routine by its own steps, its slot free. */
  lemma StopLetsGo(ss: seq<Sys>, acts: seq<Action>, c: nat, i: nat) returns (tt: seq<Sys>, more: seq<Action>)
    requires SoundRun(ss, acts) && ss[|acts|].v.mode.Stopping?
    requires var s := ss[|acts|]; c < |s.clients| && s.clients[c].alive && s.clients[c].pc == Waiting(i) && Checkable(s.clients[c].ascb, s.clients[c].asid, s.v.asvt)
    ensures Run(tt, more) && tt[0] == ss[|acts|] && more == [Wake(i), ClientStep(c, []), ClientStep(c, []), ClientStep(c, [])]
    ensures var t := tt[|more|]; c < |t.clients| && t.clients[c].pc.Out? && i < |t.slots| && t.slots[i].state == Free
  {
    RunKeeps(ss, acts, |acts|);
    var s := ss[|acts|];
    PublishedLive(s, c, i);
    var a := Step(s, Wake(i));
    var uu, rest, t := WokenLeaves(a, c, i);
    tt, more := Join([s, a], [Wake(i)], uu, rest, s, a, t);
  }

  // ---- a slot left behind ------------------------------------------------------------------------------------------

  lemma TakesEnded(s: Sys, i: nat) returns (ss: seq<Sys>, acts: seq<Action>, t: Sys)
    requires s.v.mode.Up? && s.v.pc == Look(i) && i < |s.slots| && s.slots[i].state == Pending && s.v.busy != Some(i)
    requires Lost(s.slots[i], s.v.asvt)
    ensures Path(ss, acts, s, t) && ByServer(acts) && t.clients == s.clients && |t.slots| == |s.slots| && t.v.pc == Clear(i) && t.v.mode.Up?
  {
    ss, acts := Go([s], [], s, s, ServerStep);
    var a := Step(s, ServerStep);
    assert a.v.pc == Act(i, Reap);
    ss, acts := Go(ss, acts, s, a, ServerStep);
    t := Step(a, ServerStep);
  }

  /** From any state with the server up and idle: a published slot, not in service, whose recorded address space
      has ended is freed by the server alone. */
  lemma EndedIsReclaimed(s: Sys, i: nat) returns (ss: seq<Sys>, acts: seq<Action>)
    requires s.v.mode.Up? && s.v.pc.Idle? && i < |s.slots| && s.slots[i].state == Pending && s.v.busy != Some(i)
    requires Lost(s.slots[i], s.v.asvt)
    ensures Run(ss, acts) && ss[0] == s && ByServer(acts)
    ensures var t := ss[|acts|]; t.clients == s.clients && i < |t.slots| && t.slots[i].state == Free && t.slots[i].data == [] && t.v.pc.Idle?
  {
    var a, tt, more, b, t;
    ss, acts, a := DrainReaches(s, i);
    tt, more, b := TakesEnded(a, i);
    ss, acts := Join(ss, acts, tt, more, s, a, b);
    tt, more, t := ReapRun(b, i);
    ss, acts := Join(ss, acts, tt, more, s, b, t);
  }

  lemma HoldsAt(s: Sys, i: nat) returns (ss: seq<Sys>, acts: seq<Action>, t: Sys)
    requires s.v.mode.Up? && s.v.pc == Look(i) && i < |s.slots| && s.slots[i].state == Pending && s.v.busy != Some(i)
    requires Unjudged(s.slots[i], s.v.asvt)
    ensures Path(ss, acts, s, t) && ByServer(acts) && t.clients == s.clients && |t.slots| == |s.slots|
    ensures t.slots[i] == s.slots[i].(state := Held) && t.v.pc.Idle?
  {
    ss, acts := Go([s], [], s, s, ServerStep);
    var a := Step(s, ServerStep);
    assert a.v.pc == Act(i, Hold);
    ss, acts := Go(ss, acts, s, a, ServerStep);
    t := Step(a, ServerStep);
  }

  /** One whose client cannot be judged is held by the server alone, and nothing else of it changes: neither posted
      nor reclaimed. */
  lemma UnjudgedIsHeld(s: Sys, i: nat) returns (ss: seq<Sys>, acts: seq<Action>)
    requires s.v.mode.Up? && s.v.pc.Idle? && i < |s.slots| && s.slots[i].state == Pending && s.v.busy != Some(i)
    requires Unjudged(s.slots[i], s.v.asvt)
    ensures Run(ss, acts) && ss[0] == s && ByServer(acts)
    ensures var t := ss[|acts|]; t.clients == s.clients && i < |t.slots| && t.slots[i] == s.slots[i].(state := Held) && t.v.pc.Idle?
  {
    var a, tt, more, t;
    ss, acts, a := DrainReaches(s, i);
    tt, more, t := HoldsAt(a, i);
    ss, acts := Join(ss, acts, tt, more, s, a, t);
  }

  /** A request in service, completed: freed if its client has ended meanwhile, held if it can no longer be judged. */
  lemma FinishedWithout(s: Sys, i: nat, r: Octets) returns (ss: seq<Sys>, acts: seq<Action>)
    requires s.v.mode.Up? && s.v.pc.Idle? && s.v.busy == Some(i) && i < |s.slots| && s.slots[i].state == Pending
    requires Lost(s.slots[i], s.v.asvt) || Unjudged(s.slots[i], s.v.asvt)
    ensures Run(ss, acts) && ss[0] == s && |acts| > 0 && acts[0] == Completes(r) && ByServer(acts[1..])
    ensures var t := ss[|acts|]; t.clients == s.clients && i < |t.slots| && t.v.pc.Idle? && t.v.busy.None?
    ensures var t := ss[|acts|]; t.slots[i].state == if Lost(s.slots[i], s.v.asvt) then Free else Held
  {
    ss, acts := Go([s], [], s, s, Completes(r));
    var a := Step(s, Completes(r));
    ss, acts := Go(ss, acts, s, a, ServerStep);
    var t := Step(a, ServerStep);
    if t.v.pc.Clear? {
      var tt, more, u := ReapRun(t, i);
      assert (acts + more)[1..] == acts[1..] + more;
      ss, acts := Join(ss, acts, tt, more, s, t, u);
    }
  }

  // ---- taking over --------------------------------------------------------------------------------------------------

  /** From any stopped state: left to itself, the server that takes the pool over goes through every slot and is then
      up. What ended clients have published is freed, living ones are posted with their requests held, and no other
      slot is touched. */
  lemma AdoptionSettles(s: Sys) returns (ss: seq<Sys>, acts: seq<Action>)
    requires s.v.mode.Stopping? && s.v.pc.Idle?
    ensures Run(ss, acts) && ss[0] == s && |acts| > 0 && acts[0] == Restamp && ByServer(acts[1..])
    ensures var t := ss[|acts|];
      && t.v.mode.Up? && t.v.pc.Idle? && t.clients == s.clients && |t.slots| == |s.slots|
      && forall i :: 0 <= i < |s.slots| ==> Scrubs(s.slots[i], t.slots[i], s.v.asvt)
  {
    var a := Step(s, Restamp);
    var tt, more, b := ScrubReaches(a, |a.slots|);
    tt, more := Go(tt, more, a, b, ServerStep);
    ss, acts := Join([s, a], [Restamp], tt, more, s, a, Step(b, ServerStep));
    assert acts[1..] == more;
  }
}
