/** The intrusive queue (src/nsfque.c): a circular doubly linked list through a sentinel, refining a
    bounded sequence; and the hand-off drain that reverses a pushed chain onto it (src/nsfevt.c). */
module Rings {

  class Elem {
    var next: Elem?
    var prev: Elem?

    constructor ()
      ensures next == null && prev == null
    {
      next, prev := null, null;
    }
  }

  predicate Distinct(s: seq<Elem>) {
    forall i, j :: 0 <= i < j < |s| ==> s[i] != s[j]
  }

  lemma DistinctSnoc(s: seq<Elem>, e: Elem)
    requires Distinct(s) && e !in s
    ensures Distinct(s + [e])
  {
  }

  lemma DistinctCut(s: seq<Elem>, k: nat)
    requires Distinct(s) && k < |s|
    ensures Distinct(s[..k] + s[k + 1..]) && s[k] !in s[..k] + s[k + 1..]
  {
  }

  /** Each element of `s` points to the one behind it, and back. */
  ghost predicate Linked(s: seq<Elem>)
    reads s
  {
    forall i :: 0 <= i < |s| - 1 ==> s[i].next == s[i + 1] && s[i + 1].prev == s[i]
  }

  lemma RoundCut(h: Elem, s: seq<Elem>, k: nat, i: nat)
    requires k < |s| && i < |s| + 1
    ensures ([h] + (s[..k] + s[k + 1..]) + [h])[i] == ([h] + s + [h])[if i <= k then i else i + 1]
  {
  }

  class Ring {
    const head: Elem
    const maxcount: nat
    var count: nat
    /** What is queued, front first. */
    ghost var elems: seq<Elem>

    /** Once round: the sentinel, the elements, the sentinel. */
    ghost function Round(): seq<Elem>
      reads this
    {
      [head] + elems + [head]
    }

    ghost predicate Valid()
      reads this, head, elems
    {
      && Distinct([head] + elems) && Linked(Round())
      && count == |elems| && (maxcount == 0 || count <= maxcount)
    }

    /** `q_init` */
    constructor (max: nat)
      ensures Valid() && elems == [] && maxcount == max && fresh(head)
    {
      head := new Elem();
      maxcount, count, elems := max, 0, [];
      new;
      head.next := head;
      head.prev := head;
    }

    lemma At(i: nat)
      requires Valid() && i <= |elems|
      ensures Round()[i].next == Round()[i + 1] && Round()[i + 1].prev == Round()[i]
    {
    }

    /** `q_enq`: at the back, or refused when full. */
    method Enq(e: Elem) returns (ok: bool)
      requires Valid() && e != head && e !in elems
      modifies this, head, e, elems
      ensures Valid() && ok == (maxcount == 0 || |old(elems)| < maxcount)
      ensures elems == if ok then old(elems) + [e] else old(elems)
    {
      if maxcount != 0 && count >= maxcount {
        return false;
      }
      ghost var n, was, line := |elems|, Round(), [head] + elems;
      At(n);
      var tail := head.prev;
      assert tail == line[n];
      e.next := head;
      e.prev := tail;
      tail.next := e;
      head.prev := e;
      count := count + 1;
      elems := elems + [e];
      assert e !in line;
      DistinctSnoc(line, e);
      assert [head] + elems == line + [e];
      assert line[0] == head;
      forall i | 0 <= i <= n + 1 ensures Round()[i].next == Round()[i + 1] && Round()[i + 1].prev == Round()[i] {
        if i < n {
          assert Round()[i] == line[i] != tail && Round()[i + 1] == line[i + 1] != head;
          assert was[i] == line[i] && was[i + 1] == line[i + 1];
        }
      }
      return true;
    }

    /** `q_remove`: unlink the element at any position, and poison its links. */
    method Remove(e: Elem, ghost k: nat)
      requires Valid() && k < |elems| && elems[k] == e
      modifies this, head, elems
      ensures Valid() && elems == old(elems[..k] + elems[k + 1..])
      ensures e.next == null && e.prev == null
    {
      ghost var was, line := Round(), [head] + elems;
      At(k);
      At(k + 1);
      var before, after := e.prev, e.next;
      assert before == was[k] == line[k] && after == was[k + 2];
      before.next := after;
      after.prev := before;
      e.next := null;
      e.prev := null;
      count := count - 1;
      elems := elems[..k] + elems[k + 1..];
      DistinctCut(line, k + 1);
      assert [head] + elems == line[..k + 1] + line[k + 2..];
      forall i | 0 <= i <= |elems| ensures Round()[i].next == Round()[i + 1] && Round()[i + 1].prev == Round()[i] {
        RoundCut(head, old(elems), k, i);
        RoundCut(head, old(elems), k, i + 1);
      }
    }

    /** `q_deq`: the front, or nothing. */
    method Deq() returns (e: Elem?)
      requires Valid()
      modifies this, head, elems
      ensures Valid() && (e == null <==> old(elems) == [])
      ensures old(elems) == [] ==> elems == []
      ensures old(elems) != [] ==> e == old(elems)[0] && elems == old(elems)[1..] && e.next == null && e.prev == null
    {
      if count == 0 {
        return null;
      }
      At(0);
      e := head.next;
      Remove(e, 0);
    }
  }

  // ---- the drain ------------------------------------------------------------------------------------------

  ghost function ElemAt(s: seq<Elem>, i: int): Elem? {
    if 0 <= i < |s| then s[i] else null
  }

  /** A pushed chain: linked through `next` only, its last element pointing nowhere. */
  ghost predicate Chained(chain: seq<Elem>, first: Elem?)
    reads chain
  {
    && first == ElemAt(chain, 0)
    && forall i :: 0 <= i < |chain| ==> chain[i].next == ElemAt(chain, i + 1)
  }

  function Reversed<T>(s: seq<T>): (r: seq<T>)
    ensures |r| == |s|
  {
    if s == [] then [] else Reversed(s[1..]) + [s[0]]
  }

  lemma StillChained(e: Elem, rest: seq<Elem>)
    requires Chained([e] + rest, e)
    ensures Chained(rest, e.next)
  {
    var all := [e] + rest;
    assert all[0].next == ElemAt(all, 1);
    forall i | 0 <= i < |rest| ensures rest[i].next == ElemAt(rest, i + 1) {
      assert all[i + 1] == rest[i] && all[i + 1].next == ElemAt(all, i + 2);
    }
  }

  lemma ChainCons(e: Elem, back: seq<Elem>)
    requires Chained(back, e.next)
    ensures Chained([e] + back, e)
  {
    var all := [e] + back;
    forall i | 0 <= i < |all| ensures all[i].next == ElemAt(all, i + 1) {
      if i > 0 { assert all[i] == back[i - 1] && back[i - 1].next == ElemAt(back, i); }
    }
  }

  predicate NoCommon(a: seq<Elem>, b: seq<Elem>) {
    forall x :: x in a ==> x !in b
  }

  lemma DistinctHead(e: Elem, rest: seq<Elem>)
    requires Distinct([e] + rest)
    ensures e !in rest && Distinct(rest)
  {
    var all := [e] + rest;
    forall i | 0 <= i < |rest| ensures rest[i] != e { assert all[0] == e && all[i + 1] == rest[i]; }
    forall i, j | 0 <= i < j < |rest| ensures rest[i] != rest[j] { assert all[i + 1] == rest[i] && all[j + 1] == rest[j]; }
  }

  /** Turn one link round. */
  method TurnBack(e: Elem, last: Elem?, ghost rest: seq<Elem>, ghost back: seq<Elem>) returns (next: Elem?)
    requires Chained([e] + rest, e) && Distinct([e] + rest) && Chained(back, last) && e !in back
    modifies e`next
    ensures Chained(rest, next) && Chained([e] + back, e)
  {
    DistinctHead(e, rest);
    StillChained(e, rest);
    next := e.next;
    e.next := last;
    assert Chained(rest, next) && Chained(back, last);
    ChainCons(e, back);
  }

  lemma ReversedStep<T>(todo: seq<T>, back: seq<T>)
    requires todo != []
    ensures Reversed(todo) + back == Reversed(todo[1..]) + ([todo[0]] + back)
  {
  }

  /** Part of the chain is still to be turned, and the rest lies behind it reversed. */
  ghost predicate Turning(chain: seq<Elem>, todo: seq<Elem>, back: seq<Elem>, rest: Elem?, last: Elem?)
    reads todo, back
  {
    && Chained(todo, rest) && Chained(back, last) && Distinct(todo) && NoCommon(todo, back)
    && Reversed(todo) + back == Reversed(chain) && forall x :: x in todo ==> x in chain
  }

  lemma HeadOf(chain: seq<Elem>, e: Elem)
    requires Chained(chain, e)
    ensures chain != [] && chain == [e] + chain[1..] && e in chain
  {
  }

  /** Turn the next link round. */
  method TurnNext(e: Elem, last: Elem?, ghost chain: seq<Elem>, ghost todo: seq<Elem>, ghost back: seq<Elem>) returns (next: Elem?)
    requires Turning(chain, todo, back, e, last)
    modifies e`next
    ensures todo != [] && Turning(chain, todo[1..], [e] + back, next, e)
  {
    HeadOf(todo, e);
    DistinctHead(e, todo[1..]);
    next := TurnBack(e, last, todo[1..], back);
    ReversedStep(todo, back);
  }

  /** Reverse a chain in place, one link at a time. */
  method ReverseChain(first: Elem?, ghost chain: seq<Elem>) returns (last: Elem?)
    requires Chained(chain, first) && Distinct(chain)
    modifies chain`next
    ensures Chained(Reversed(chain), last)
  {
    var rest := first;
    last := null;
    ghost var todo, back: seq<Elem> := chain, [];
    while rest != null
      invariant Turning(chain, todo, back, rest, last)
      decreases |todo|
    {
      HeadOf(todo, rest);
      var next := TurnNext(rest, last, chain, todo, back);
      todo, back := todo[1..], [rest] + back;
      last, rest := rest, next;
    }
    assert todo == [];
    assert back == Reversed(chain);
  }

  /** Position `i` of the reversal is position `n - 1 - i` of the chain. */
  lemma {:induction false} ReversedAt<T>(s: seq<T>, i: nat)
    requires i < |s|
    ensures Reversed(s)[i] == s[|s| - 1 - i]
  {
    if i < |s| - 1 { ReversedAt(s[1..], i); }
  }

  lemma {:induction false} ReversedSame<T>(s: seq<T>)
    ensures forall x :: x in Reversed(s) <==> x in s
  {
    if s != [] { ReversedSame(s[1..]); }
  }

  lemma {:induction false} ReversedDistinct(s: seq<Elem>)
    requires Distinct(s)
    ensures Distinct(Reversed(s))
  {
    if s != [] {
      assert s == [s[0]] + s[1..];
      DistinctHead(s[0], s[1..]);
      ReversedDistinct(s[1..]);
      ReversedSame(s[1..]);
      DistinctSnoc(Reversed(s[1..]), s[0]);
    }
  }

  /** Nothing in the chain is on the ring. */
  ghost predicate Apart(q: Ring, chain: seq<Elem>)
    reads q
  {
    Distinct(chain) && forall x :: x in chain ==> x != q.head && x !in q.elems
  }

  predicate Within(s: seq<Elem>, pool: set<Elem>) {
    forall i :: 0 <= i < |s| ==> s[i] in pool
  }

  lemma WithinHead(e: Elem, rest: seq<Elem>, pool: set<Elem>)
    requires Within([e] + rest, pool)
    ensures e in pool && Within(rest, pool)
  {
    var all := [e] + rest;
    assert all[0] in pool;
    forall i | 0 <= i < |rest| ensures rest[i] in pool { assert all[i + 1] == rest[i]; }
  }

  lemma WithinSnoc(s: seq<Elem>, e: Elem, pool: set<Elem>)
    requires Within(s, pool) && e in pool
    ensures Within(s + [e], pool)
  {
  }

  lemma ReversedWithin(s: seq<Elem>, pool: set<Elem>)
    requires Within(s, pool)
    ensures Within(Reversed(s), pool)
  {
    ReversedSame(s);
    forall i | 0 <= i < |s| ensures Reversed(s)[i] in pool { assert Reversed(s)[i] in Reversed(s); }
  }

  /** Queue the first element of a chain; `pool` holds every element there is. */
  method EnqueueFirst(q: Ring, e: Elem, ghost rest: seq<Elem>, ghost pool: set<Elem>) returns (next: Elem?)
    requires q.Valid() && q.maxcount == 0 && Chained([e] + rest, e) && Apart(q, [e] + rest)
    requires e in pool && Within(q.elems, pool)
    modifies q, q.head, pool
    ensures q.Valid() && q.elems == old(q.elems) + [e] && Chained(rest, next) && Apart(q, rest)
  {
    DistinctHead(e, rest);
    StillChained(e, rest);
    assert e in [e] + rest && forall x :: x in rest ==> x in [e] + rest;
    assert forall x :: x in rest ==> x != e && x != q.head && x !in q.elems;
    assert forall i :: 0 <= i < |rest| ==> rest[i] in rest;
    next := e.next;
    var ok := q.Enq(e);
    assert forall x :: x in q.elems ==> x in old(q.elems) || x == e;
  }

  /** The rest of the chain is ready to go behind what is queued. */
  ghost predicate Queueing(q: Ring, todo: seq<Elem>, cur: Elem?, pool: set<Elem>)
    reads q, q.head, q.elems, todo
  {
    q.Valid() && q.maxcount == 0 && Chained(todo, cur) && Apart(q, todo) && Within(q.elems, pool) && Within(todo, pool)
  }

  lemma DoneOn(was: seq<Elem>, done: seq<Elem>, e: Elem, more: seq<Elem>)
    ensures done + ([e] + more) == (done + [e]) + more && (was + done) + [e] == was + (done + [e])
  {
  }

  method EnqueueNext(q: Ring, e: Elem, ghost todo: seq<Elem>, ghost pool: set<Elem>) returns (next: Elem?)
    requires Queueing(q, todo, e, pool)
    modifies q, q.head, pool
    ensures todo != [] && q.elems == old(q.elems) + [e] && Queueing(q, todo[1..], next, pool)
  {
    HeadOf(todo, e);
    WithinHead(e, todo[1..], pool);
    next := EnqueueFirst(q, e, todo[1..], pool);
    WithinSnoc(old(q.elems), e, pool);
  }

  method EnqueueChain(q: Ring, first: Elem?, ghost chain: seq<Elem>, ghost pool: set<Elem>)
    requires q.Valid() && q.maxcount == 0 && Chained(chain, first) && Apart(q, chain)
    requires Within(q.elems, pool) && Within(chain, pool)
    modifies q, q.head, pool
    ensures q.Valid() && q.elems == old(q.elems) + chain
  {
    var cur := first;
    ghost var was, todo, done: seq<Elem> := q.elems, chain, [];
    while cur != null
      invariant Queueing(q, todo, cur, pool)
      invariant done + todo == chain && q.elems == was + done
      decreases |todo|
    {
      HeadOf(todo, cur);
      ghost var e, more := cur, todo[1..];
      cur := EnqueueNext(q, cur, todo, pool);
      DoneOn(was, done, e, more);
      todo, done := more, done + [e];
    }
    assert done == chain;
  }

  lemma StillValid(q: Ring, ring: seq<Elem>)
    requires ring == q.Round() && Linked(ring) && Distinct([q.head] + q.elems)
    requires q.count == |q.elems| && (q.maxcount == 0 || q.count <= q.maxcount)
    ensures q.Valid()
  {
  }

  /** Reversing a chain leaves the ring it is not on alone. */
  method ReverseApart(q: Ring, first: Elem?, ghost chain: seq<Elem>) returns (last: Elem?)
    requires q.Valid() && Chained(chain, first) && Apart(q, chain)
    modifies chain
    ensures q.Valid() && Chained(Reversed(chain), last) && Apart(q, Reversed(chain))
  {
    ReversedSame(chain);
    ReversedDistinct(chain);
    ghost var ring := q.Round();
    assert NoCommon(ring, chain) && forall i :: 0 <= i < |ring| ==> ring[i] in ring;
    last := ReverseChain(first, chain);
    assert Linked(ring);
    StillValid(q, ring);
  }

  /** `evt_drain_handoff`: a stack's worth of elements, newest first, goes behind what is queued, oldest
      first. */
  method DrainHandoff(q: Ring, first: Elem?, ghost chain: seq<Elem>, ghost pool: set<Elem>)
    requires q.Valid() && q.maxcount == 0 && Chained(chain, first) && Apart(q, chain)
    requires Within(q.elems, pool) && Within(chain, pool)
    modifies q, q.head, pool
    ensures q.Valid() && q.elems == old(q.elems) + Reversed(chain)
  {
    ReversedWithin(chain, pool);
    var last := ReverseApart(q, first, chain);
    EnqueueChain(q, last, Reversed(chain), pool);
  }
}
