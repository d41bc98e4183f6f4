/** The slot pool's decisions (src/nsfreqx.c): client liveness, what the drain does with a slot, which
    slot transitions are allowed, when a slot may be reclaimed, what an adopting start does. */
module SlotRules {

  datatype SlotState = Free | Pending | Done | Held | Claimed
  datatype Verdict = Live | Dead | Unknown
  datatype SlotAct = NoAct | Dispatch | Hold | Reap | ReapBad
  datatype AdoptAct = AdoptNone | AdoptReap | AdoptPost

  type Asvt = seq<nat>

  const ASVT_AVAIL: nat := 0x8000_0000
  const WORD: nat := 0x1_0000_0000

  /** The high bit of an ASVT entry: the ASID is free. */
  predicate Avail(entry: nat) {
    entry / ASVT_AVAIL % 2 == 1
  }

  /** Whether a recorded identity can be checked at all. */
  predicate Checkable(ascb: nat, asid: nat, asvt: Asvt) {
    ascb != 0 && 0 < asid <= |asvt|
  }

  /** An empty table stands for one the server cannot reach. */
  function Classify(ascb: nat, asid: nat, asvt: Asvt): (v: Verdict)
    ensures v == Unknown <==> !Checkable(ascb, asid, asvt)
    ensures v == Live <==> Checkable(ascb, asid, asvt) && asvt[asid - 1] == ascb && !Avail(ascb)
  {
    if ascb == 0 then Unknown
    else if |asvt| == 0 then Unknown
    else if asid == 0 || asid > |asvt| then Unknown
    else
      var entry := asvt[asid - 1];
      if Avail(entry) then Dead
      else if entry != ascb then Dead
      else Live
  }

  function SlotAction(state: SlotState, verdict: Verdict, guardOk: bool, ptrOk: bool): SlotAct {
    if state != Pending then NoAct
    else if verdict == Dead then Reap
    else if verdict == Unknown then Hold
    else if !guardOk || !ptrOk then ReapBad
    else Dispatch
  }

  /** Whether a pass can consume an action: a dispatch needs the one private request block. */
  predicate Actionable(act: SlotAct, busy: bool) {
    match act
    case Reap | Hold | ReapBad => true
    case Dispatch => !busy
    case NoAct => false
  }

  predicate SlotLegal(from: SlotState, to: SlotState) {
    match from
    case Free => to == Claimed
    case Claimed => to == Pending || to == Free
    case Pending => to == Done || to == Held || to == Free || to == Claimed
    case Held => to == Free || to == Claimed
    case Done => to == Free || to == Claimed
  }

  predicate ReapOk(observed: SlotState, verdict: Verdict, storageOk: bool) {
    if verdict == Unknown then false
    else if verdict != Dead && storageOk then false
    else observed == Pending || observed == Held || observed == Done
  }

  function AdoptAction(state: SlotState, verdict: Verdict, storageOk: bool): AdoptAct {
    if verdict == Dead then
      if ReapOk(state, Dead, true) then AdoptReap else AdoptNone
    else if verdict == Live && storageOk && (state == Pending || state == Held) then AdoptPost
    else AdoptNone
  }

  /** The drain dispatches a published request of a live client with intact storage, holds one of a client it cannot
      judge, and reclaims the others; the scrub posts live clients, and reclaims what dead ones have published. What
      either reclaims is what the governing rule allows: there is one rule, not three. */
  lemma OneReapRule(state: SlotState, verdict: Verdict, guardOk: bool, ptrOk: bool)
    ensures var act := SlotAction(state, verdict, guardOk, ptrOk);
      && (act == Dispatch <==> state == Pending && verdict == Live && guardOk && ptrOk)
      && (act == Hold <==> state == Pending && verdict == Unknown)
      && (act == Reap || act == ReapBad <==> state == Pending && (verdict == Dead || (verdict == Live && !(guardOk && ptrOk))))
      && (act == Reap || act == ReapBad <==> state == Pending && ReapOk(state, verdict, guardOk && ptrOk))
    ensures var plan := AdoptAction(state, verdict, guardOk && ptrOk);
      && (plan == AdoptPost <==> verdict == Live && guardOk && ptrOk && (state == Pending || state == Held))
      && (plan == AdoptReap <==> verdict == Dead && (state == Pending || state == Held || state == Done))
      && (plan == AdoptReap <==> verdict == Dead && ReapOk(state, verdict, true))
  {
  }

  /** The address space that retained an anchor has ended: no live entry names it, or it is ours now. */
  method ServerGone(serverAscb: nat, ourAscb: nat, asvt: Asvt) returns (gone: bool)
    ensures gone <==>
      && serverAscb != 0
      && (serverAscb == ourAscb || (asvt != [] && forall i :: 0 <= i < |asvt| ==> Avail(asvt[i]) || asvt[i] != serverAscb))
  {
    if serverAscb == 0 {
      return false;
    }
    if serverAscb == ourAscb {
      return true;
    }
    if |asvt| == 0 {
      return false;
    }
    var i := 0;
    while i < |asvt|
      invariant 0 <= i <= |asvt|
      invariant forall j :: 0 <= j < i ==> Avail(asvt[j]) || asvt[j] != serverAscb
    {
      if !Avail(asvt[i]) && asvt[i] == serverAscb {
        return false;
      }
      i := i + 1;
    }
    return true;
  }
}
