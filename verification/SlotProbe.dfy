/** The drain's selector and the WAIT gate's probe (src/nsfsx.c): they answer one question. */
module SlotProbe {
  import opened Options
  import opened SlotRules
  import opened SlotPool

  /** A pass can consume slot `i`: it carries a published request other than the one in service, and
      its outcome needs nothing the pass does not have. */
  predicate Consumable(slots: seq<Slot>, i: nat, busy: Option<nat>, ptr: bool, asvt: Asvt)
    requires i < |slots|
  {
    && slots[i].state == Pending && busy != Some(i)
    && Actionable(SlotAction(slots[i].state, Ident(slots[i], asvt), slots[i].guard, ptr), busy.Some?)
  }

  method AnyPendingOther(slots: seq<Slot>, busy: Option<nat>) returns (any: bool)
    ensures any <==> exists i :: 0 <= i < |slots| && slots[i].state == Pending && busy != Some(i)
  {
    var i := 0;
    while i < |slots|
      invariant 0 <= i <= |slots|
      invariant forall j :: 0 <= j < i ==> slots[j].state != Pending || busy == Some(j)
    {
      if slots[i].state == Pending && busy != Some(i) {
        return true;
      }
      i := i + 1;
    }
    return false;
  }

  /** The lowest slot this pass can act on. */
  method NextActionable(slots: seq<Slot>, busy: Option<nat>, ptr: bool, asvt: Asvt) returns (k: nat)
    ensures k <= |slots| && (k < |slots| ==> Consumable(slots, k, busy, ptr, asvt))
    ensures forall j :: 0 <= j < k ==> !Consumable(slots, j, busy, ptr, asvt)
  {
    k := 0;
    while k < |slots|
      invariant 0 <= k <= |slots|
      invariant forall j :: 0 <= j < k ==> !Consumable(slots, j, busy, ptr, asvt)
    {
      if slots[k].state == Pending && busy != Some(k) {
        var act := SlotAction(slots[k].state, Ident(slots[k], asvt), slots[k].guard, ptr);
        if Actionable(act, busy.Some?) {
          return;
        }
      }
      k := k + 1;
    }
  }

  /** The probe keeps the loop from its WAIT exactly when this pass has something to finish or to
      consume: no work is slept on, and no pass spins on work it would decline. */
  method ProbePending(slots: seq<Slot>, busy: Option<nat>, completed: bool, ptr: bool, asvt: Asvt) returns (pending: bool)
    ensures pending <==> (busy.Some? && completed) || exists i :: 0 <= i < |slots| && Consumable(slots, i, busy, ptr, asvt)
  {
    if busy.Some? && completed {
      return true;
    }
    var any := AnyPendingOther(slots, busy);
    if !any {
      return false;
    }
    if busy.None? {
      ghost var i :| 0 <= i < |slots| && slots[i].state == Pending && busy != Some(i);
      assert Consumable(slots, i, busy, ptr, asvt);
      return true;
    }
    var k := NextActionable(slots, busy, ptr, asvt);
    return k < |slots|;
  }

  function FirstFrom(slots: seq<Slot>, k: nat, busy: Option<nat>, ptr: bool, asvt: Asvt): (r: nat)
    requires k <= |slots|
    ensures k <= r <= |slots| && (r < |slots| ==> Consumable(slots, r, busy, ptr, asvt))
    ensures forall j :: k <= j < r ==> !Consumable(slots, j, busy, ptr, asvt)
    decreases |slots| - k
  {
    if k == |slots| || Consumable(slots, k, busy, ptr, asvt) then k else FirstFrom(slots, k + 1, busy, ptr, asvt)
  }

  /** The drain's walk over the pool, left alone until it leaves the selector. */
  function Walked(s: Sys): Sys
    requires s.v.pc.Look? && s.v.pc.k <= |s.slots|
    decreases |s.slots| - s.v.pc.k
  {
    var t := Step(s, ServerStep);
    if t.v.pc.Look? then Walked(t) else t
  }

  /** The walk stops at the lowest slot the pass can act on, and acts on that one. */
  lemma {:induction false} WalkFindsFirst(s: Sys)
    requires s.v.pc.Look? && s.v.pc.k <= |s.slots|
    ensures var r := FirstFrom(s.slots, s.v.pc.k, s.v.busy, s.v.ptr, s.v.asvt);
      Walked(s) == s.(v := s.v.(pc := if r == |s.slots| then Idle
                                      else Act(r, SlotAction(s.slots[r].state, Ident(s.slots[r], s.v.asvt), s.slots[r].guard, s.v.ptr))))
    decreases |s.slots| - s.v.pc.k
  {
    if s.v.pc.k < |s.slots| && !Consumable(s.slots, s.v.pc.k, s.v.busy, s.v.ptr, s.v.asvt) {
      WalkFindsFirst(Step(s, ServerStep));
    }
  }
}
