/** Fixed-object pools (src/nsfmm.c) with the debug guards: a LIFO free list threaded through the objects. */
module Pools {

  datatype Eye = Live | Idle

  class Obj {
    const poolid: nat
    var eye: Eye
    var next: Obj?

    constructor (id: nat, after: Obj?)
      ensures poolid == id && eye == Idle && next == after
    {
      poolid, eye, next := id, Idle, after;
    }
  }

  datatype FreeResult = Freed | BadObj | WrongPool

  ghost function ObjAt(s: seq<Obj>, i: nat): Obj? {
    if i < |s| then s[i] else null
  }

  predicate Distinct(s: seq<Obj>) {
    forall i, j :: 0 <= i < j < |s| ==> s[i] != s[j]
  }

  /** The objects of `s`, each pointing to the next, the last to nothing. */
  ghost predicate Threaded(s: seq<Obj>)
    reads s
  {
    forall i :: 0 <= i < |s| ==> s[i].next == ObjAt(s, i + 1)
  }

  ghost function SetOf(s: seq<Obj>): set<Obj> {
    set o | o in s
  }

  lemma {:induction false} SetSize(s: seq<Obj>)
    requires Distinct(s)
    ensures |SetOf(s)| == |s|
  {
    if s != [] {
      var front, last := s[..|s| - 1], s[|s| - 1];
      SetSize(front);
      assert SetOf(s) == SetOf(front) + {last};
      forall i | 0 <= i < |front| ensures front[i] != last { assert s[i] == front[i]; }
    }
  }

  /** What of `objs` is not on the list. */
  ghost function Beyond(objs: set<Obj>, list: seq<Obj>): set<Obj> { objs - SetOf(list) }

  class Pool {
    const poolid: nat
    const count: nat
    var freelist: Obj?
    var inuse: nat
    var hiwater: nat
    var allocs: nat
    var frees: nat
    var fails: nat
    ghost var objs: set<Obj>
    /** The free list, top first. */
    ghost var free: seq<Obj>

    /** Every object is on the free list once and stamped idle, or off it and stamped live. */
    ghost predicate Listed()
      reads this, objs
    {
      && (forall o :: o in free ==> o in objs) && Distinct(free) && Threaded(free) && freelist == ObjAt(free, 0)
      && forall o :: o in objs ==> o.poolid == poolid && (o.eye == Idle <==> o in free)
    }

    ghost predicate Valid()
      reads this, objs
    {
      Listed() && |objs| == count && inuse + |free| == count && allocs == frees + inuse && inuse <= hiwater <= count
    }

    /** The objects that are out. */
    ghost function Out(): set<Obj>
      reads this
    {
      Beyond(objs, free)
    }

    /** `inuse` counts what is out, and nothing is left exactly when everything is out. */
    lemma OutIsInuse()
      requires Valid()
      ensures |Out()| == inuse && (freelist == null <==> Out() == objs)
      ensures forall o :: o in Out() <==> o in objs && o.eye == Live
    {
      SetSize(free);
      assert SetOf(free) <= objs;
      assert objs == Out() + SetOf(free);
      if free != [] { assert free[0] in SetOf(free) && free[0] !in Out(); }
    }

    lemma SomeOut(o: Obj)
      requires Valid() && o in objs && o !in free
      ensures inuse > 0
    {
      OutIsInuse();
      assert o in Out();
    }

    /** `mm_pool_create`: every object free, the last carved on top. */
    constructor (id: nat, n: nat)
      ensures Valid() && poolid == id && count == n && |free| == n && Out() == {} && fresh(objs)
    {
      poolid, count := id, n;
      freelist, inuse, hiwater, allocs, frees, fails := null, 0, 0, 0, 0, 0;
      objs, free := {}, [];
      new;
      for i := 0 to n
        invariant Listed() && |free| == |objs| == i && (forall o :: o in objs ==> o in free) && fresh(objs)
        invariant inuse == hiwater == allocs == frees == 0
      {
        Carve();
      }
      assert Beyond(objs, free) == {};
    }

    method Carve()
      requires Listed() && forall o :: o in objs ==> o in free
      modifies this`freelist, this`free, this`objs
      ensures Listed() && (forall o :: o in objs ==> o in free) && |free| == old(|free|) + 1 && |objs| == old(|objs|) + 1
      ensures fresh(objs - old(objs))
    {
      var o := new Obj(poolid, freelist);
      Onto(o, free);
      freelist := o;
      free, objs := [o] + free, objs + {o};
    }

    /** `mm_alloc`: the object freed last, or nothing exactly when none is left. */
    method Alloc() returns (o: Obj?)
      requires Valid()
      modifies this, freelist
      ensures Valid() && objs == old(objs)
      ensures o == null ==> old(free) == [] && free == [] && fails == old(fails) + 1
      ensures o != null ==> old(free) == [o] + free && o !in free && fails == old(fails)
    {
      o := freelist;
      if o == null {
        fails := fails + 1;
        return;
      }
      Pop(o);
      inuse := inuse + 1;
      if inuse > hiwater {
        hiwater := inuse;
      }
      allocs := allocs + 1;
    }

    method Pop(o: Obj)
      requires Listed() && freelist == o
      modifies this`freelist, this`free, o
      ensures Listed() && old(free) == [o] + free && o !in free
    {
      ghost var rest := free[1..];
      assert free == [o] + rest;
      Off(o, rest);
      freelist := o.next;
      o.next := null;
      o.eye := Live;
      free := rest;
      assert Threaded(rest);
    }

    method Push(o: Obj)
      requires Listed() && o in objs && o.eye == Live
      modifies this`freelist, this`free, o
      ensures Listed() && free == [o] + old(free)
    {
      o.eye := Idle;
      o.next := freelist;
      assert Threaded(free);
      Onto(o, free);
      freelist := o;
      free := [o] + free;
    }

    /** `mm_free` under the guards: a live object of this pool goes back on top; a double free, or an
        object of another pool, is refused and changes nothing. */
    method Free(o: Obj) returns (r: FreeResult)
      requires Valid() && (o.poolid == poolid ==> o in objs)
      modifies this, o
      ensures Valid() && objs == old(objs)
      ensures r == Freed <==> o in objs && o !in old(free)
      ensures r == BadObj <==> old(o.eye) == Idle
      ensures r == Freed ==> free == [o] + old(free)
      ensures r != Freed ==> free == old(free) && inuse == old(inuse) && o.eye == old(o.eye) && o.next == old(o.next)
    {
      if o.eye != Live {
        return BadObj;
      }
      if o.poolid != poolid {
        return WrongPool;
      }
      SomeOut(o);
      Push(o);
      inuse := inuse - 1;
      frees := frees + 1;
      return Freed;
    }
  }

  lemma Onto(o: Obj, s: seq<Obj>)
    requires Distinct(s) && Threaded(s) && o !in s && o.next == ObjAt(s, 0)
    ensures Distinct([o] + s) && Threaded([o] + s)
  {
    var all := [o] + s;
    forall i | 0 <= i < |all| ensures all[i].next == ObjAt(all, i + 1) {
      if i > 0 { assert all[i] == s[i - 1] && s[i - 1].next == ObjAt(s, i); }
    }
  }

  lemma Off(o: Obj, rest: seq<Obj>)
    requires Distinct([o] + rest) && Threaded([o] + rest)
    ensures Distinct(rest) && Threaded(rest) && o !in rest && o.next == ObjAt(rest, 0)
  {
    var all := [o] + rest;
    assert all[0].next == ObjAt(all, 1);
    forall i | 0 <= i < |rest| ensures rest[i].next == ObjAt(rest, i + 1) && rest[i] != o {
      assert all[i + 1] == rest[i] && all[0] == o;
    }
    forall i, j | 0 <= i < j < |rest| ensures rest[i] != rest[j] { assert all[i + 1] == rest[i] && all[j + 1] == rest[j]; }
  }
}
