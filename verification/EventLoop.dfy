/** The executive's main loop (src/nsfevt.c) with its two hand-off stacks, as a step system: producers push
    and then post, the loop gates its WAIT on what is pending, clears before it drains, and dispatches a
    bounded number of events a pass. */
module EventLoop {
  import Rings

  const BUDGET: nat := 64

  type Id = nat

  datatype Item = Handed(id: Id) | Posted(id: Id)

  /** Where the executive stands. */
  datatype Pc =
    | GateQueues | GateRequests | GateStop | Waiting
    | ClearHandoff | ClearWake | TakeHandoff | PollDevices
    | ResetRequest | TakeRequests | ServeRequests | Recheck
    | Dispatch | TimerWake | Kick | StopCheck | Stopped

  /** The queues, and what has passed through them. */
  datatype Queues = Queues(
    evq: seq<Item>,
    xq: seq<Id>,           // hand-off stack, newest first
    reqq: seq<Id>,         // request stack, newest first
    batch: seq<Id>,        // requests taken and not yet dispatched
    pushed: seq<Id>, done: seq<Item>, submitted: seq<Id>, served: seq<Id>)

  /** The ECBs, the stop flag, and the producers between their push (or flag) and their post. */
  datatype Flags = Flags(
    handoffEcb: bool, requestEcb: bool, wakeEcb: bool, timerEcb: bool, stopEcb: bool,
    stop: bool, pushing: nat, submitting: nat, stopping: bool)

  /** `passes` counts the dispatch phases completed. */
  datatype State = State(pc: Pc, q: Queues, f: Flags, budget: nat, passes: nat)

  datatype Action =
    | Push(id: Id) | PostHandoff | Submit(id: Id) | PostRequest | WakeUp | Tick | AskStop | PostStop
    | Exec(posts: seq<Id>)

  function Mark(ids: seq<Id>): (r: seq<Item>)
    ensures |r| == |ids|
  {
    seq(|ids|, i requires 0 <= i < |ids| => Handed(ids[i]))
  }

  function Posts(ids: seq<Id>): (r: seq<Item>)
    ensures |r| == |ids|
  {
    seq(|ids|, i requires 0 <= i < |ids| => Posted(ids[i]))
  }

  const EMPTY := Queues([], [], [], [], [], [], [], [])

  predicate Init(s: State) {
    s == State(GateQueues, EMPTY, Flags(false, false, false, false, false, false, 0, 0, false), 0, 0)
  }

  predicate Woken(f: Flags) {
    f.handoffEcb || f.requestEcb || f.wakeEcb || f.timerEcb || f.stopEcb
  }

  // ---- what happens to the queues -------------------------------------------------------------------------

  /** Take the whole hand-off stack, reversed, onto the end of the event queue. */
  function TakeHandoffs(q: Queues): Queues { q.(evq := q.evq + Mark(Rings.Reversed(q.xq)), xq := []) }

  function TakeBatch(q: Queues): Queues { q.(batch := Rings.Reversed(q.reqq), reqq := []) }

  function Post(q: Queues, posts: seq<Id>): Queues { q.(evq := q.evq + Posts(posts)) }

  function ServeOne(q: Queues): Queues
    requires q.batch != []
  {
    q.(batch := q.batch[1..], served := q.served + [q.batch[0]])
  }

  function DispatchOne(q: Queues, posts: seq<Id>): Queues
    requires q.evq != []
  {
    q.(done := q.done + [q.evq[0]], evq := q.evq[1..] + Posts(posts))
  }

  // ---- the steps --------------------------------------------------------------------------------------------

  /** One step of the executive; `posts` is what the device poll, handler or request it runs, if any, posts. The gate
      reads one source at a time; each ECB is cleared before what it stands for is taken. */
  function ExecStep(s: State, posts: seq<Id>): State {
    match s.pc
    case GateQueues => s.(pc := if s.q.evq == [] && s.q.xq == [] then GateRequests else ClearHandoff)
    case GateRequests => s.(pc := if s.q.reqq == [] then GateStop else ClearHandoff)
    case GateStop => s.(pc := if s.f.stop || s.f.stopEcb then ClearHandoff else Waiting)
    case Waiting => if Woken(s.f) then s.(pc := ClearHandoff) else s
    case ClearHandoff => s.(f := s.f.(handoffEcb := false), pc := ClearWake)
    case ClearWake => s.(f := s.f.(wakeEcb := false), pc := TakeHandoff)
    case TakeHandoff => s.(q := TakeHandoffs(s.q), pc := PollDevices)
    case PollDevices => s.(q := Post(s.q, posts), pc := ResetRequest)
    case ResetRequest => s.(f := s.f.(requestEcb := false), pc := TakeRequests)
    case TakeRequests => s.(q := TakeBatch(s.q), pc := ServeRequests)
    case ServeRequests => if s.q.batch == [] then s.(pc := Recheck) else s.(q := Post(ServeOne(s.q), posts))
    case Recheck => if s.q.reqq != [] then s.(pc := ResetRequest) else s.(pc := Dispatch, budget := BUDGET)
    case Dispatch =>
      if s.budget == 0 || s.q.evq == [] then s.(pc := TimerWake, passes := s.passes + 1)
      else s.(q := DispatchOne(s.q, posts), budget := s.budget - 1)
    case TimerWake => if s.f.timerEcb then s.(f := s.f.(timerEcb := false), q := Post(s.q, posts), pc := Kick) else s.(pc := Kick)
    case Kick => s.(q := Post(s.q, posts), pc := StopCheck)
    case StopCheck => s.(pc := if s.f.stop || s.f.stopEcb then Stopped else GateQueues)
    case Stopped => s
  }

  /** One step of a producer, the timer, or whoever asks for a stop. */
  function OtherStep(s: State, a: Action): State {
    match a
    case Push(id) => s.(q := s.q.(xq := [id] + s.q.xq, pushed := s.q.pushed + [id]), f := s.f.(pushing := s.f.pushing + 1))
    case PostHandoff => if s.f.pushing == 0 then s else s.(f := s.f.(pushing := s.f.pushing - 1, handoffEcb := true))
    case Submit(id) => s.(q := s.q.(reqq := [id] + s.q.reqq, submitted := s.q.submitted + [id]), f := s.f.(submitting := s.f.submitting + 1))
    case PostRequest => if s.f.submitting == 0 then s else s.(f := s.f.(submitting := s.f.submitting - 1, requestEcb := true))
    case WakeUp => s.(f := s.f.(wakeEcb := true))
    case Tick => s.(f := s.f.(timerEcb := true))
    case AskStop => s.(f := s.f.(stop := true, stopping := true))
    case PostStop => if s.f.stopping then s.(f := s.f.(stopping := false, stopEcb := true)) else s
    case Exec(_) => s
  }

  function Step(s: State, a: Action): State {
    if a.Exec? then ExecStep(s, a.posts) else OtherStep(s, a)
  }

  function After(s: State, acts: seq<Action>): State
    decreases |acts|
  {
    if acts == [] then s else Step(After(s, acts[..|acts| - 1]), acts[|acts| - 1])
  }

  // ---- no lost wakeup ------------------------------------------------------------------------------------

  predicate Wakes(s: State) {
    && (s.q.xq != [] ==> s.f.handoffEcb || s.f.pushing > 0 || s.pc.ClearWake? || s.pc.TakeHandoff?)
    && (s.q.reqq != [] ==> s.f.requestEcb || s.f.submitting > 0 || s.pc.TakeRequests?)
    && (s.f.stop ==> s.f.stopEcb || s.f.stopping)
    && (s.pc.GateRequests? || s.pc.GateStop? || s.pc.Waiting? ==> s.q.evq == [])
    && (!s.pc.ServeRequests? ==> s.q.batch == [])
  }

  predicate Early(pc: Pc) {
    pc.GateQueues? || pc.GateRequests? || pc.GateStop? || pc.Waiting? || pc.ClearHandoff? || pc.ClearWake? || pc.TakeHandoff?
  }

  lemma WakesEarly(s: State, posts: seq<Id>)
    requires Wakes(s) && Early(s.pc)
    ensures Wakes(ExecStep(s, posts))
  {
  }

  lemma WakesLate(s: State, posts: seq<Id>)
    requires Wakes(s) && !Early(s.pc)
    ensures Wakes(ExecStep(s, posts))
  {
  }

  lemma WakesExec(s: State, posts: seq<Id>)
    requires Wakes(s)
    ensures Wakes(ExecStep(s, posts))
  {
    if Early(s.pc) { WakesEarly(s, posts); } else { WakesLate(s, posts); }
  }

  lemma WakesAdds(s: State, a: Action)
    requires Wakes(s) && (a.Push? || a.Submit? || a.AskStop?)
    ensures Wakes(OtherStep(s, a))
  {
  }

  lemma WakesPosts(s: State, a: Action)
    requires Wakes(s) && !a.Push? && !a.Submit? && !a.AskStop?
    ensures Wakes(OtherStep(s, a))
  {
    assert OtherStep(s, a).q == s.q && OtherStep(s, a).pc == s.pc;
  }

  lemma WakesOther(s: State, a: Action)
    requires Wakes(s)
    ensures Wakes(OtherStep(s, a))
  {
    if a.Push? || a.Submit? || a.AskStop? { WakesAdds(s, a); } else { WakesPosts(s, a); }
  }

  lemma {:induction false} WakesRun(s: State, acts: seq<Action>)
    requires Init(s)
    ensures Wakes(After(s, acts))
    decreases |acts|
  {
    if acts != [] {
      var t, a := After(s, acts[..|acts| - 1]), acts[|acts| - 1];
      WakesRun(s, acts[..|acts| - 1]);
      if a.Exec? { WakesExec(t, a.posts); } else { WakesOther(t, a); }
    }
  }

  predicate Blocked(s: State) { s.pc.Waiting? && !Woken(s.f) }

  /** Whenever the executive is blocked, what is pending has a producer that is yet to post; once no
      producer is, nothing is pending. */
  lemma NoLostWakeup(s: State, acts: seq<Action>)
    requires Init(s) && Blocked(After(s, acts))
    ensures var t := After(s, acts);
      && (t.q.xq != [] ==> t.f.pushing > 0) && (t.q.reqq != [] ==> t.f.submitting > 0) && (t.f.stop ==> t.f.stopping)
      && t.q.evq == [] && t.q.batch == []
  {
    WakesRun(s, acts);
  }

  // ---- order ----------------------------------------------------------------------------------------------

  function HandedOf(items: seq<Item>): seq<Id> {
    if items == [] then []
    else (if items[0].Handed? then [items[0].id] else []) + HandedOf(items[1..])
  }

  lemma HandedCons(x: Item, rest: seq<Item>)
    ensures HandedOf([x] + rest) == HandedOf([x]) + HandedOf(rest)
  {
    assert ([x] + rest)[1..] == rest && [x][1..] == [];
  }

  lemma Grouped(a: seq<Id>, b: seq<Id>, c: seq<Id>)
    ensures (a + b) + c == a + (b + c)
  {
  }

  lemma {:induction false} HandedAppend(a: seq<Item>, b: seq<Item>)
    ensures HandedOf(a + b) == HandedOf(a) + HandedOf(b)
  {
    if a == [] {
      assert a + b == b;
    } else {
      HandedCons(a[0], a[1..]);
      HandedAppend(a[1..], b);
      HandedCons(a[0], a[1..] + b);
      assert a == [a[0]] + a[1..] && a + b == [a[0]] + (a[1..] + b);
      Grouped(HandedOf([a[0]]), HandedOf(a[1..]), HandedOf(b));
    }
  }

  lemma {:induction false} HandedMark(ids: seq<Id>)
    ensures HandedOf(Mark(ids)) == ids
  {
    if ids != [] {
      assert Mark(ids)[1..] == Mark(ids[1..]);
      HandedMark(ids[1..]);
    }
  }

  lemma {:induction false} HandedPosts(ids: seq<Id>)
    ensures HandedOf(Posts(ids)) == []
  {
    if ids != [] {
      assert Posts(ids)[1..] == Posts(ids[1..]);
      HandedPosts(ids[1..]);
    }
  }

  lemma ReverseCons<T>(x: T, s: seq<T>)
    ensures Rings.Reversed([x] + s) == Rings.Reversed(s) + [x]
  {
    assert ([x] + s)[1..] == s;
  }

  /** Everything handed off is dispatched, queued or on the stack, once, in push order; every request
      likewise. */
  predicate InOrder(q: Queues) {
    && q.pushed == HandedOf(q.done + q.evq) + Rings.Reversed(q.xq)
    && q.submitted == q.served + q.batch + Rings.Reversed(q.reqq)
  }

  lemma DispatchedSame(done: seq<Item>, evq: seq<Item>, posts: seq<Id>)
    requires evq != []
    ensures HandedOf((done + [evq[0]]) + (evq[1..] + Posts(posts))) == HandedOf(done + evq)
  {
    assert (done + [evq[0]]) + (evq[1..] + Posts(posts)) == (done + evq) + Posts(posts);
    HandedAppend(done + evq, Posts(posts));
    HandedPosts(posts);
  }

  lemma PostedSame(done: seq<Item>, evq: seq<Item>, posts: seq<Id>)
    ensures HandedOf(done + (evq + Posts(posts))) == HandedOf(done + evq)
  {
    assert done + (evq + Posts(posts)) == (done + evq) + Posts(posts);
    HandedAppend(done + evq, Posts(posts));
    HandedPosts(posts);
  }

  lemma TakenSame(done: seq<Item>, evq: seq<Item>, xq: seq<Id>)
    ensures HandedOf(done + (evq + Mark(Rings.Reversed(xq)))) + Rings.Reversed<Id>([]) == HandedOf(done + evq) + Rings.Reversed(xq)
  {
    assert done + (evq + Mark(Rings.Reversed(xq))) == (done + evq) + Mark(Rings.Reversed(xq));
    HandedAppend(done + evq, Mark(Rings.Reversed(xq)));
    HandedMark(Rings.Reversed(xq));
  }

  lemma QueuesInOrder(q: Queues, posts: seq<Id>)
    requires InOrder(q)
    ensures InOrder(TakeHandoffs(q)) && InOrder(Post(q, posts))
    ensures q.batch == [] ==> InOrder(TakeBatch(q))
    ensures q.batch != [] ==> InOrder(ServeOne(q))
    ensures q.evq != [] ==> InOrder(DispatchOne(q, posts))
  {
    TakenSame(q.done, q.evq, q.xq);
    PostedSame(q.done, q.evq, posts);
    if q.batch != [] { assert q.served + q.batch == (q.served + [q.batch[0]]) + q.batch[1..]; }
    if q.evq != [] { DispatchedSame(q.done, q.evq, posts); }
  }

  /** What a step of the executive can do to the queues. */
  predicate Moves(q: Queues, r: Queues, posts: seq<Id>) {
    || r == q || r == TakeHandoffs(q) || r == Post(q, posts)
    || (q.batch == [] && r == TakeBatch(q))
    || (q.batch != [] && r == Post(ServeOne(q), posts))
    || (q.evq != [] && r == DispatchOne(q, posts))
  }

  lemma ExecMoves(s: State, posts: seq<Id>)
    requires !s.pc.ServeRequests? ==> s.q.batch == []
    ensures Moves(s.q, ExecStep(s, posts).q, posts)
  {
  }

  lemma MovesInOrder(q: Queues, r: Queues, posts: seq<Id>)
    requires InOrder(q) && Moves(q, r, posts)
    ensures InOrder(r)
  {
    QueuesInOrder(q, posts);
    if q.batch != [] { QueuesInOrder(ServeOne(q), posts); }
  }

  lemma OrderExec(s: State, posts: seq<Id>)
    requires InOrder(s.q) && (!s.pc.ServeRequests? ==> s.q.batch == [])
    ensures InOrder(ExecStep(s, posts).q)
  {
    ExecMoves(s, posts);
    MovesInOrder(s.q, ExecStep(s, posts).q, posts);
  }

  lemma OrderOther(s: State, a: Action)
    requires InOrder(s.q)
    ensures InOrder(OtherStep(s, a).q)
  {
    if a.Push? { ReverseCons(a.id, s.q.xq); }
    if a.Submit? { ReverseCons(a.id, s.q.reqq); }
  }

  /** Handed-off elements are dispatched in push order across all drains, and requests in the order they
      were submitted. */
  lemma {:induction false} HandedInOrder(s: State, acts: seq<Action>)
    requires Init(s)
    ensures InOrder(After(s, acts).q)
    decreases |acts|
  {
    if acts != [] {
      var t, a := After(s, acts[..|acts| - 1]), acts[|acts| - 1];
      HandedInOrder(s, acts[..|acts| - 1]);
      WakesRun(s, acts[..|acts| - 1]);
      if a.Exec? { OrderExec(t, a.posts); } else { OrderOther(t, a); }
    }
  }

  // ---- no starvation --------------------------------------------------------------------------------------

  /** The events dispatched and queued only grow at the end. */
  predicate Grows(q: Queues, r: Queues) { q.done + q.evq <= r.done + r.evq }

  lemma QueuesGrow(q: Queues, posts: seq<Id>)
    ensures Grows(q, TakeHandoffs(q)) && Grows(q, Post(q, posts)) && Grows(q, TakeBatch(q))
    ensures q.batch != [] ==> Grows(q, Post(ServeOne(q), posts))
    ensures q.evq != [] ==> Grows(q, DispatchOne(q, posts))
  {
    if q.evq != [] { assert (q.done + [q.evq[0]]) + (q.evq[1..] + Posts(posts)) == (q.done + q.evq) + Posts(posts); }
  }

  lemma HistoryGrows(s: State, a: Action)
    ensures Grows(s.q, Step(s, a).q)
  {
    if a.Exec? { QueuesGrow(s.q, a.posts); }
  }

  /** How much of the dispatch phase under way, if one is, has been used up. */
  function Used(s: State): nat {
    if s.pc.Dispatch? && s.budget <= BUDGET then BUDGET - s.budget else 0
  }

  /** Since `from` passes had been made, either event number `g` has been dispatched, or every phase has
      dispatched a full budget, counting from `base`. */
  predicate Serving(s: State, base: int, from: nat, g: nat) {
    && from <= s.passes && s.budget <= BUDGET && g < |s.q.done + s.q.evq|
    && (|s.q.done| > g || |s.q.done| - Used(s) >= base + 64 * (s.passes - from))
  }

  lemma ServingStep(s: State, a: Action, base: int, from: nat, g: nat)
    requires Serving(s, base, from, g)
    ensures Serving(Step(s, a), base, from, g)
  {
    HistoryGrows(s, a);
  }

  lemma {:induction false} ServingRun(s: State, acts: seq<Action>, g: nat)
    requires s.budget <= BUDGET && g < |s.q.done + s.q.evq|
    ensures Serving(After(s, acts), |s.q.done| - Used(s), s.passes, g) && Grows(s.q, After(s, acts).q)
    decreases |acts|
  {
    if acts != [] {
      var t, a := After(s, acts[..|acts| - 1]), acts[|acts| - 1];
      ServingRun(s, acts[..|acts| - 1], g);
      ServingStep(t, a, |s.q.done| - Used(s), s.passes, g);
      HistoryGrows(t, a);
    }
  }

  lemma Rounds(k: nat, passes: nat, from: nat)
    requires passes >= from + k / 64 + 1
    ensures 64 * (passes - from) > k
  {
  }

  lemma BudgetKept(s: State, a: Action)
    requires s.budget <= BUDGET
    ensures Step(s, a).budget <= BUDGET
  {
  }

  lemma {:induction false} WithinBudget(s: State, acts: seq<Action>)
    requires Init(s)
    ensures After(s, acts).budget <= BUDGET
    decreases |acts|
  {
    if acts != [] {
      WithinBudget(s, acts[..|acts| - 1]);
      BudgetKept(After(s, acts[..|acts| - 1]), acts[|acts| - 1]);
    }
  }

  lemma ServedInTurn(init: State, before: seq<Action>, s: State, acts: seq<Action>, k: nat)
    requires Init(init) && s == After(init, before) && k < |s.q.evq|
    requires 64 * (After(s, acts).passes - s.passes) > k + Used(s)
    ensures var t := After(s, acts); |t.q.done| > |s.q.done| + k && t.q.done[|s.q.done| + k] == s.q.evq[k]
  {
    WithinBudget(init, before);
    var g, t := |s.q.done| + k, After(s, acts);
    ServingRun(s, acts, g);
    assert (t.q.done + t.q.evq)[g] == (s.q.done + s.q.evq)[g];
  }

  /** Wherever in its pass the loop is, an event at position `k` of the queue has been dispatched once
      k / 64 + 1 passes have been made, the budget already used up in the phase under way counted with `k`,
      whatever handlers, requests, devices and producers have added meanwhile. */
  lemma NoStarvation(init: State, before: seq<Action>, s: State, acts: seq<Action>, k: nat)
    requires Init(init) && s == After(init, before) && k < |s.q.evq|
    requires After(s, acts).passes >= s.passes + (k + Used(s)) / 64 + 1
    ensures var t := After(s, acts); |t.q.done| > |s.q.done| + k && t.q.done[|s.q.done| + k] == s.q.evq[k]
  {
    Rounds(k + Used(s), After(s, acts).passes, s.passes);
    ServedInTurn(init, before, s, acts, k);
  }

  /** What has been dispatched, and may yet be in this pass. */
  predicate WithinPasses(s: State) {
    if s.pc.Dispatch? then |s.q.done| + s.budget <= 64 * (s.passes + 1) else |s.q.done| <= 64 * s.passes
  }

  lemma StepWithin(s: State, a: Action)
    requires WithinPasses(s)
    ensures WithinPasses(Step(s, a))
  {
    if a.Exec? { ExecWithin(s, a.posts); }
  }

  lemma ExecWithin(s: State, posts: seq<Id>)
    requires WithinPasses(s)
    ensures WithinPasses(ExecStep(s, posts))
  {
  }

  /** No pass dispatches more than 64 events, so timers, devices and the stop flag are looked at in between. */
  lemma {:induction false} PassesBounded(init: State, acts: seq<Action>)
    requires Init(init)
    ensures var t := After(init, acts); |t.q.done| <= 64 * (t.passes + 1)
    ensures WithinPasses(After(init, acts))
    decreases |acts|
  {
    if acts != [] {
      PassesBounded(init, acts[..|acts| - 1]);
      StepWithin(After(init, acts[..|acts| - 1]), acts[|acts| - 1]);
    }
  }

  // ---- stopping, the timer, and coming to rest ------------------------------------------------------------

  /** The points between the end of the dispatch and the stop check. */
  predicate Closing(pc: Pc) { pc.TimerWake? || pc.Kick? || pc.StopCheck? || pc.Stopped? }

  predicate Obeys(s: State, from: nat) {
    s.f.stop && (s.passes <= from || (s.passes == from + 1 && Closing(s.pc)))
  }

  lemma ExecObeys(s: State, posts: seq<Id>, from: nat)
    requires Obeys(s, from)
    ensures Obeys(ExecStep(s, posts), from)
  {
  }

  lemma OtherObeys(s: State, a: Action, from: nat)
    requires Obeys(s, from)
    ensures Obeys(OtherStep(s, a), from)
  {
    var t := OtherStep(s, a);
    assert t.pc == s.pc && t.passes == s.passes && t.f.stop;
  }

  lemma {:induction false} ObeyedRun(s: State, acts: seq<Action>)
    requires s.f.stop
    ensures Obeys(After(s, acts), s.passes)
    decreases |acts|
  {
    if acts != [] {
      var t, a := After(s, acts[..|acts| - 1]), acts[|acts| - 1];
      ObeyedRun(s, acts[..|acts| - 1]);
      if a.Exec? { ExecObeys(t, a.posts, s.passes); } else { OtherObeys(t, a, s.passes); }
    }
  }

  /** The loop has ended only once it was asked to. */
  predicate Asked(s: State) { s.pc.Stopped? ==> s.f.stop || s.f.stopEcb }

  lemma ExecAsked(s: State, posts: seq<Id>)
    requires Asked(s)
    ensures Asked(ExecStep(s, posts))
  {
  }

  lemma OtherAsked(s: State, a: Action)
    requires Asked(s)
    ensures Asked(OtherStep(s, a))
  {
    var t := OtherStep(s, a);
    assert t.pc == s.pc && (s.f.stop ==> t.f.stop) && (s.f.stopEcb ==> t.f.stopEcb);
  }

  lemma {:induction false} AskedRun(init: State, acts: seq<Action>)
    requires Init(init)
    ensures Asked(After(init, acts))
    decreases |acts|
  {
    if acts != [] {
      var t, a := After(init, acts[..|acts| - 1]), acts[|acts| - 1];
      AskedRun(init, acts[..|acts| - 1]);
      if a.Exec? { ExecAsked(t, a.posts); } else { OtherAsked(t, a); }
    }
  }

  /** A stop is obeyed and never made up: once asked for, at most the pass under way is completed; and the loop
      has stopped only if it was asked to. */
  lemma StopIsObeyed(init: State, before: seq<Action>, s: State, acts: seq<Action>)
    requires Init(init) && s == After(init, before)
    ensures s.f.stop ==> After(s, acts).passes <= s.passes + 1
    ensures s.pc.Stopped? ==> s.f.stop || s.f.stopEcb
  {
    AskedRun(init, before);
    if s.f.stop { ObeyedRun(s, acts); }
  }

  predicate NoTick(acts: seq<Action>) { forall i :: 0 <= i < |acts| ==> !acts[i].Tick? }

  /** No tick is left over, unless the pass after `from` is not yet past its timers. */
  predicate Ticked(s: State, from: nat) {
    !s.f.timerEcb || s.passes == from || (s.passes == from + 1 && s.pc.TimerWake?)
  }

  lemma ExecTicks(s: State, posts: seq<Id>, from: nat)
    requires Ticked(s, from)
    ensures Ticked(ExecStep(s, posts), from)
  {
  }

  lemma OtherTicks(s: State, a: Action, from: nat)
    requires Ticked(s, from) && !a.Tick?
    ensures Ticked(OtherStep(s, a), from)
  {
    var t := OtherStep(s, a);
    assert t.pc == s.pc && t.passes == s.passes && t.f.timerEcb == s.f.timerEcb;
  }

  /** A tick is taken by the end of the pass under way, whatever else arrives. */
  lemma {:induction false} TickIsTaken(s: State, acts: seq<Action>)
    requires NoTick(acts)
    ensures Ticked(After(s, acts), s.passes)
    decreases |acts|
  {
    if acts != [] {
      var t, a := After(s, acts[..|acts| - 1]), acts[|acts| - 1];
      TickIsTaken(s, acts[..|acts| - 1]);
      if a.Exec? { ExecTicks(t, a.posts, s.passes); } else { OtherTicks(t, a, s.passes); }
    }
  }

  /** The step runs something that may post: a device poll or kick, a request, a handler, or the timers if one is due. */
  predicate Runs(s: State) {
    match s.pc
    case PollDevices => true
    case Kick => true
    case TimerWake => s.f.timerEcb
    case ServeRequests => s.q.batch != []
    case Dispatch => s.budget > 0 && s.q.evq != []
    case _ => false
  }

  /** What it posts is queued behind everything queued before, and nothing is lost on the way. */
  lemma PostsAreQueued(s: State, posts: seq<Id>)
    requires Runs(s)
    ensures var t := ExecStep(s, posts); t.q.done + t.q.evq == s.q.done + s.q.evq + Posts(posts)
  {
    var t := ExecStep(s, posts);
    if s.pc.Dispatch? { assert t.q.done + t.q.evq == s.q.done + [s.q.evq[0]] + (s.q.evq[1..] + Posts(posts)); }
  }

  /** The executive alone, with nothing new posted. */
  predicate Alone(acts: seq<Action>) { forall i :: 0 <= i < |acts| ==> acts[i] == Exec([]) }

  predicate NothingQueued(q: Queues) { q.evq == [] && q.xq == [] && q.reqq == [] && q.batch == [] }

  /** In the second pass each ECB is cleared in its turn, and no third begins. */
  predicate Settles(s: State, from: nat) {
    && NothingQueued(s.q) && !s.f.stop && !s.f.stopEcb && s.passes <= from + 2
    && (s.passes == from + 1 && (s.pc.TakeHandoff? || s.pc.PollDevices? || s.pc.ResetRequest? || Later(s.pc)) ==> !s.f.handoffEcb && !s.f.wakeEcb)
    && (s.passes == from + 1 && s.pc.ClearWake? ==> !s.f.handoffEcb)
    && (s.passes == from + 1 && Later(s.pc) ==> !s.f.requestEcb)
    && (s.passes == from + 2 ==> !s.f.handoffEcb && !s.f.wakeEcb && !s.f.requestEcb)
    && (s.passes == from + 2 ==> s.pc.TimerWake? || (!s.f.timerEcb && (s.pc.Kick? || s.pc.StopCheck? || Gating(s.pc))))
  }

  predicate Later(pc: Pc) { pc.TakeRequests? || pc.ServeRequests? || pc.Recheck? || pc.Dispatch? }

  predicate Gating(pc: Pc) { pc.GateQueues? || pc.GateRequests? || pc.GateStop? || pc.Waiting? }

  lemma SettlesStep(s: State, from: nat)
    requires Settles(s, from)
    ensures Settles(ExecStep(s, []), from)
  {
  }

  lemma {:induction false} SettlesRun(s: State, acts: seq<Action>)
    requires NothingQueued(s.q) && !s.f.stop && !s.f.stopEcb && Alone(acts)
    ensures Settles(After(s, acts), s.passes)
    decreases |acts|
  {
    if acts != [] {
      SettlesRun(s, acts[..|acts| - 1]);
      SettlesStep(After(s, acts[..|acts| - 1]), s.passes);
    }
  }

  /** With nothing queued and nobody posting, whatever ECBs are still posted, the loop makes at most two more passes;
      after the second it comes to its WAIT with none of them posted. */
  lemma ComesToRest(s: State, acts: seq<Action>)
    requires NothingQueued(s.q) && !s.f.stop && !s.f.stopEcb && Alone(acts)
    ensures var t := After(s, acts);
      t.passes <= s.passes + 2 && NothingQueued(t.q) && (t.passes == s.passes + 2 && t.pc.Waiting? ==> Blocked(t))
  {
    SettlesRun(s, acts);
  }
}
