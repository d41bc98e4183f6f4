/** `nsf_select` (src/nsfeza.c): the caller's bit masks turned into a descriptor list, and the executive's
    answer turned back into bit masks in place. */
module Facade {
  import opened Options
  import opened Bytes
  import opened Masks
  import opened Sockets
  import opened SocketTheorems
  import opened Selects

  const SOC_LIMIT: nat := 64

  // ---- what is asked, and what it should come to ------------------------------------------------------

  function Wanted(rm: Option<Octets>, wm: Option<Octets>, n: nat): Bits {
    Bits(rm.Some? && MaskBit(rm.value, n), wm.Some? && MaskBit(wm.value, n))
  }

  function ItemAt(sockmap: seq<nat>, rm: Option<Octets>, wm: Option<Octets>, n: nat): Item
    requires n < |sockmap|
  {
    Item(sockmap[n], Wanted(rm, wm, n), Bits(false, false))
  }

  predicate Listed(sockmap: seq<nat>, rm: Option<Octets>, wm: Option<Octets>, n: nat) {
    n < |sockmap| && sockmap[n] != 0 && Any(Wanted(rm, wm, n))
  }

  function WithNumber(ns: seq<nat>, sockmap: seq<nat>, rm: Option<Octets>, wm: Option<Octets>, n: nat): seq<nat> {
    if Listed(sockmap, rm, wm, n) then ns + [n] else ns
  }

  /** The numbers below `n` that are listed, in order. */
  function Numbers(sockmap: seq<nat>, rm: Option<Octets>, wm: Option<Octets>, n: nat): seq<nat> {
    if n == 0 then [] else WithNumber(Numbers(sockmap, rm, wm, n - 1), sockmap, rm, wm, n - 1)
  }

  /** What is asked of the executive: one item for each of those numbers. */
  function ItemsOf(sockmap: seq<nat>, rm: Option<Octets>, wm: Option<Octets>, n: nat): (items: seq<Item>)
    ensures |items| == |Numbers(sockmap, rm, wm, n)|
  {
    if n == 0 then []
    else if Listed(sockmap, rm, wm, n - 1) then ItemsOf(sockmap, rm, wm, n - 1) + [ItemAt(sockmap, rm, wm, n - 1)] else ItemsOf(sockmap, rm, wm, n - 1)
  }

  lemma {:induction false} ItemsAre(sockmap: seq<nat>, rm: Option<Octets>, wm: Option<Octets>, n: nat, k: nat)
    requires k < |Numbers(sockmap, rm, wm, n)|
    ensures Numbers(sockmap, rm, wm, n)[k] < |sockmap|
    ensures ItemsOf(sockmap, rm, wm, n)[k] == ItemAt(sockmap, rm, wm, Numbers(sockmap, rm, wm, n)[k])
  {
    if n > 0 && k < |Numbers(sockmap, rm, wm, n - 1)| { ItemsAre(sockmap, rm, wm, n - 1, k); }
  }

  /** What number `n` comes to: ready for what was asked of it, and a mapped number. */
  function Verdict(st: Stack, ascb: nat, asid: nat, sockmap: seq<nat>, rm: Option<Octets>, wm: Option<Octets>, n: nat): Bits {
    if !Listed(sockmap, rm, wm, n) then Bits(false, false)
    else ReadyBits(st.tab, st.apps, ItemAt(sockmap, rm, wm, n), ascb, asid)
  }

  predicate AllListed(ns: seq<nat>, sockmap: seq<nat>, rm: Option<Octets>, wm: Option<Octets>, n: nat) {
    forall k :: 0 <= k < |ns| ==> ns[k] < n && Listed(sockmap, rm, wm, ns[k])
  }

  predicate ListsAll(ns: seq<nat>, sockmap: seq<nat>, rm: Option<Octets>, wm: Option<Octets>, n: nat) {
    forall m: nat :: m < n && Listed(sockmap, rm, wm, m) ==> m in ns
  }

  lemma OneNumberMore(ns: seq<nat>, sockmap: seq<nat>, rm: Option<Octets>, wm: Option<Octets>, n: nat)
    requires AllListed(ns, sockmap, rm, wm, n) && ListsAll(ns, sockmap, rm, wm, n)
    ensures var more := WithNumber(ns, sockmap, rm, wm, n);
      AllListed(more, sockmap, rm, wm, n + 1) && ListsAll(more, sockmap, rm, wm, n + 1)
  {
  }

  lemma {:induction false} NumbersAre(sockmap: seq<nat>, rm: Option<Octets>, wm: Option<Octets>, n: nat)
    ensures AllListed(Numbers(sockmap, rm, wm, n), sockmap, rm, wm, n)
    ensures ListsAll(Numbers(sockmap, rm, wm, n), sockmap, rm, wm, n)
  {
    if n > 0 {
      NumbersAre(sockmap, rm, wm, n - 1);
      OneNumberMore(Numbers(sockmap, rm, wm, n - 1), sockmap, rm, wm, n - 1);
    }
  }

  /** How many numbers below `n` have a bit in either mask. */
  function CountBits(rm: Option<Octets>, wm: Option<Octets>, n: nat): nat {
    if n == 0 then 0 else CountBits(rm, wm, n - 1) + if Any(Wanted(rm, wm, n - 1)) then 1 else 0
  }

  /** The answered items for `ns`. */
  predicate Answers(items: seq<Item>, ns: seq<nat>, st: Stack, ascb: nat, asid: nat, sockmap: seq<nat>, rm: Option<Octets>, wm: Option<Octets>) {
    && |items| == |ns|
    && forall k :: 0 <= k < |items| ==> items[k].ready == Verdict(st, ascb, asid, sockmap, rm, wm, ns[k])
  }

  /** Bit `n` of the rewritten masks for every number: exactly the verdict. */
  ghost predicate Rewritten(rm': Option<Octets>, wm': Option<Octets>, st: Stack, ascb: nat, asid: nat, sockmap: seq<nat>,
                      rm: Option<Octets>, wm: Option<Octets>, max: nat)
  {
    && (rm'.Some? <==> rm.Some?) && (wm'.Some? <==> wm.Some?)
    && forall n: nat :: n < 32 * ((max + 31) / 32) ==>
         Wanted(rm', wm', n) == if n < max then Verdict(st, ascb, asid, sockmap, rm, wm, n) else Bits(false, false)
  }

  lemma AnswersFront(items: seq<Item>, st: Stack, ascb: nat, asid: nat, sockmap: seq<nat>, rm: Option<Octets>, wm: Option<Octets>, n: nat)
    requires n > 0 && Listed(sockmap, rm, wm, n - 1) && Answers(items, Numbers(sockmap, rm, wm, n), st, ascb, asid, sockmap, rm, wm)
    ensures items != [] && items[|items| - 1].ready == Verdict(st, ascb, asid, sockmap, rm, wm, n - 1)
    ensures Answers(items[..|items| - 1], Numbers(sockmap, rm, wm, n - 1), st, ascb, asid, sockmap, rm, wm)
  {
    var ns, before := Numbers(sockmap, rm, wm, n), Numbers(sockmap, rm, wm, n - 1);
    assert ns == before + [n - 1];
    assert forall k :: 0 <= k < |before| ==> ns[k] == before[k];
  }

  /** The return value counts the numbers with any bit in the rewritten masks. */
  lemma {:induction false} CountAgrees(items: seq<Item>, rm': Option<Octets>, wm': Option<Octets>, st: Stack, ascb: nat, asid: nat,
                                       sockmap: seq<nat>, rm: Option<Octets>, wm: Option<Octets>, max: nat, n: nat)
    requires n <= max && Rewritten(rm', wm', st, ascb, asid, sockmap, rm, wm, max)
    requires Answers(items, Numbers(sockmap, rm, wm, n), st, ascb, asid, sockmap, rm, wm)
    ensures CountReady(items) == CountBits(rm', wm', n)
  {
    if n > 0 {
      assert Wanted(rm', wm', n - 1) == Verdict(st, ascb, asid, sockmap, rm, wm, n - 1);
      if Listed(sockmap, rm, wm, n - 1) {
        AnswersFront(items, st, ascb, asid, sockmap, rm, wm, n);
        CountAgrees(items[..|items| - 1], rm', wm', st, ascb, asid, sockmap, rm, wm, max, n - 1);
      } else {
        CountAgrees(items, rm', wm', st, ascb, asid, sockmap, rm, wm, max, n - 1);
      }
    }
  }

  // ---- the call -----------------------------------------------------------------------------------------

  /** A mask area, or none given. */
  ghost function Of(m: array?<Byte>): Option<Octets>
    reads m
  {
    if m == null then None else Some(m[..])
  }

  method Asked(m: array?<Byte>, n: nat) returns (b: bool)
    ensures b == (Of(m).Some? && MaskBit(Of(m).value, n))
  {
    if m == null || Octet(n) >= m.Length {
      return false;
    }
    b := Bit(m[Octet(n)], n % 8);
  }

  /** The descriptor list, and the number each item stands for. */
  method BuildItems(sockmap: seq<nat>, max: nat, rm: array?<Byte>, wm: array?<Byte>) returns (items: seq<Item>, numbers: seq<nat>)
    requires max <= |sockmap|
    ensures numbers == Numbers(sockmap, Of(rm), Of(wm), max) && items == ItemsOf(sockmap, Of(rm), Of(wm), max)
  {
    items, numbers := [], [];
    for n := 0 to max
      invariant numbers == Numbers(sockmap, Of(rm), Of(wm), n) && items == ItemsOf(sockmap, Of(rm), Of(wm), n)
    {
      var read := Asked(rm, n);
      var write := Asked(wm, n);
      if (read || write) && sockmap[n] != 0 {
        items := items + [Item(sockmap[n], Bits(read, write), Bits(false, false))];
        numbers := numbers + [n];
      }
    }
  }

  method MaskClear(m: array?<Byte>, words: nat)
    requires m != null ==> 4 * words <= m.Length
    modifies if m == null then {} else {m}
    ensures m != null ==> forall i :: 0 <= i < m.Length ==> m[i] == if i < 4 * words then 0 else old(m[i])
  {
    if m != null {
      forall i | 0 <= i < 4 * words { m[i] := 0; }
    }
  }

  lemma {:induction false} NoBits(j: nat)
    ensures !Bit(0, j)
  {
    if j > 0 { NoBits(j - 1); }
  }

  method MaskSet(m: array<Byte>, n: nat)
    requires Octet(n) < m.Length
    modifies m
    ensures forall i: nat :: MaskBit(m[..], i) <==> i == n || MaskBit(old(m[..]), i)
  {
    ghost var was := m[..];
    m[Octet(n)] := Set(m[Octet(n)], n % 8);
    assert m[..] == was[Octet(n) := Set(was[Octet(n)], n % 8)];
    forall i: nat ensures MaskBit(m[..], i) <==> i == n || MaskBit(was, i) { SetIsOne(was, n, i); }
  }

  /** A ready item among the first `k` stands for number `n`. */
  predicate Marked(items: seq<Item>, numbers: seq<nat>, write: bool, k: nat, n: nat)
    requires k <= |items| == |numbers|
  {
    exists j :: 0 <= j < k && numbers[j] == n && (if write then items[j].ready.write else items[j].ready.read)
  }

  lemma MarkedNext(items: seq<Item>, numbers: seq<nat>, write: bool, k: nat, n: nat)
    requires k < |items| == |numbers|
    ensures Marked(items, numbers, write, k + 1, n)
      <==> Marked(items, numbers, write, k, n) || (numbers[k] == n && if write then items[k].ready.write else items[k].ready.read)
  {
  }

  /** What a mask holds after the first `k` items: the marks, over what was there. */
  ghost predicate Shows(m: array?<Byte>, was: Octets, items: seq<Item>, numbers: seq<nat>, write: bool, k: nat)
    requires k <= |items| == |numbers|
    reads m
  {
    m != null ==> forall n: nat :: MaskBit(m[..], n) <==> MaskBit(was, n) || Marked(items, numbers, write, k, n)
  }

  /** Set one mask's bit for item `k`, if the item is ready for it. */
  method SetOne(m: array?<Byte>, items: seq<Item>, numbers: seq<nat>, write: bool, k: nat, ghost was: Octets)
    requires k < |items| == |numbers| && (m != null ==> Octet(numbers[k]) < m.Length) && Shows(m, was, items, numbers, write, k)
    modifies if m == null then {} else {m}
    ensures Shows(m, was, items, numbers, write, k + 1)
  {
    forall n: nat ensures Marked(items, numbers, write, k + 1, n)
      <==> Marked(items, numbers, write, k, n) || (numbers[k] == n && if write then items[k].ready.write else items[k].ready.read)
    {
      MarkedNext(items, numbers, write, k, n);
    }
    if m != null && (if write then items[k].ready.write else items[k].ready.read) {
      MaskSet(m, numbers[k]);
    }
  }

  /** Set the ready bits of both masks. */
  method SetReady(rm: array?<Byte>, wm: array?<Byte>, items: seq<Item>, numbers: seq<nat>, ghost r0: Octets, ghost w0: Octets)
    requires |items| == |numbers| && (rm == null || rm != wm)
    requires forall k :: 0 <= k < |numbers| ==> (rm != null ==> Octet(numbers[k]) < rm.Length) && (wm != null ==> Octet(numbers[k]) < wm.Length)
    requires (rm != null ==> rm[..] == r0) && (wm != null ==> wm[..] == w0)
    modifies (if rm == null then {} else {rm}) + (if wm == null then {} else {wm})
    ensures Shows(rm, r0, items, numbers, false, |items|) && Shows(wm, w0, items, numbers, true, |items|)
  {
    for k := 0 to |items|
      invariant Shows(rm, r0, items, numbers, false, k) && Shows(wm, w0, items, numbers, true, k)
    {
      SetOne(rm, items, numbers, false, k, r0);
      SetOne(wm, items, numbers, true, k, w0);
    }
  }

  /** No bit of the first `words` fullwords. */
  ghost predicate Cleared(s: Octets, words: nat) {
    4 * words <= |s| && forall i :: 0 <= i < 4 * words ==> s[i] == 0
  }

  lemma ClearedBit(s: Octets, words: nat, n: nat)
    requires Cleared(s, words) && n < 32 * words
    ensures !MaskBit(s, n)
  {
    OctetInside(n, words);
    NoBits(n % 8);
  }

  lemma MarkIsVerdict(items: seq<Item>, st: Stack, ascb: nat, asid: nat, sockmap: seq<nat>, rm: Option<Octets>, wm: Option<Octets>, max: nat, n: nat)
    requires Answers(items, Numbers(sockmap, rm, wm, max), st, ascb, asid, sockmap, rm, wm)
    ensures var ns := Numbers(sockmap, rm, wm, max); var v := if n < max then Verdict(st, ascb, asid, sockmap, rm, wm, n) else Bits(false, false);
      Marked(items, ns, false, |items|, n) == v.read && Marked(items, ns, true, |items|, n) == v.write
  {
    var ns := Numbers(sockmap, rm, wm, max);
    NumbersAre(sockmap, rm, wm, max);
    if n < max && Listed(sockmap, rm, wm, n) {
      var k :| 0 <= k < |ns| && ns[k] == n;
      assert items[k].ready == Verdict(st, ascb, asid, sockmap, rm, wm, n);
    }
  }

  lemma VerdictWanted(st: Stack, ascb: nat, asid: nat, sockmap: seq<nat>, rm: Option<Octets>, wm: Option<Octets>, n: nat)
    ensures var v := Verdict(st, ascb, asid, sockmap, rm, wm, n); (v.read ==> rm.Some?) && (v.write ==> wm.Some?)
  {
  }

  lemma IsRewritten(rm': array?<Byte>, wm': array?<Byte>, r0: Octets, w0: Octets, items: seq<Item>, st: Stack, ascb: nat, asid: nat,
                    sockmap: seq<nat>, rm: Option<Octets>, wm: Option<Octets>, max: nat)
    requires (rm' != null <==> rm.Some?) && (wm' != null <==> wm.Some?)
    requires (rm' != null ==> Cleared(r0, (max + 31) / 32)) && (wm' != null ==> Cleared(w0, (max + 31) / 32))
    requires Answers(items, Numbers(sockmap, rm, wm, max), st, ascb, asid, sockmap, rm, wm)
    requires Shows(rm', r0, items, Numbers(sockmap, rm, wm, max), false, |items|)
    requires Shows(wm', w0, items, Numbers(sockmap, rm, wm, max), true, |items|)
    ensures Rewritten(Of(rm'), Of(wm'), st, ascb, asid, sockmap, rm, wm, max)
  {
    var words := (max + 31) / 32;
    forall n: nat | n < 32 * words
      ensures Wanted(Of(rm'), Of(wm'), n) == if n < max then Verdict(st, ascb, asid, sockmap, rm, wm, n) else Bits(false, false)
    {
      MarkIsVerdict(items, st, ascb, asid, sockmap, rm, wm, max, n);
      VerdictWanted(st, ascb, asid, sockmap, rm, wm, n);
      if rm' != null { ClearedBit(r0, words, n); }
      if wm' != null { ClearedBit(w0, words, n); }
    }
  }

  lemma StayClear(rm: array?<Byte>, wm: array?<Byte>, r0: Octets, w0: Octets, items: seq<Item>, numbers: seq<nat>, max: nat)
    requires |items| == |numbers| && forall k :: 0 <= k < |items| ==> !Any(items[k].ready)
    requires (rm != null ==> Cleared(r0, (max + 31) / 32)) && (wm != null ==> Cleared(w0, (max + 31) / 32))
    requires Shows(rm, r0, items, numbers, false, |items|) && Shows(wm, w0, items, numbers, true, |items|)
    ensures forall n: nat :: n < max ==> !Any(Wanted(Of(rm), Of(wm), n))
  {
    forall n: nat | n < max ensures !Any(Wanted(Of(rm), Of(wm), n)) {
      if rm != null { ClearedBit(r0, (max + 31) / 32, n); }
      if wm != null { ClearedBit(w0, (max + 31) / 32, n); }
    }
  }

  function Clamp(maxsoc: int, limit: nat): nat {
    if maxsoc > limit then limit else if maxsoc < 0 then 0 else maxsoc
  }

  lemma AnswersScan(st: Stack, ascb: nat, asid: nat, sockmap: seq<nat>, rm: Option<Octets>, wm: Option<Octets>, max: nat)
    ensures var items := ItemsOf(sockmap, rm, wm, max);
      Answers(Scanned(st.tab, st.apps, items, ascb, asid), Numbers(sockmap, rm, wm, max), st, ascb, asid, sockmap, rm, wm)
  {
    NumbersAre(sockmap, rm, wm, max);
    var ns := Numbers(sockmap, rm, wm, max);
    forall k | 0 <= k < |ns|
      ensures ns[k] < |sockmap| && ItemsOf(sockmap, rm, wm, max)[k] == ItemAt(sockmap, rm, wm, ns[k])
    {
      ItemsAre(sockmap, rm, wm, max, k);
    }
  }

  /** Clear all three masks and set the ready bits. */
  method Rewrite(words: nat, rm: array?<Byte>, wm: array?<Byte>, em: array?<Byte>, items: seq<Item>, numbers: seq<nat>)
    returns (ghost r0: Octets, ghost w0: Octets)
    requires |items| == |numbers| && (rm == null || (rm != wm && rm != em)) && (wm == null || wm != em)
    requires (rm != null ==> 4 * words <= rm.Length) && (wm != null ==> 4 * words <= wm.Length) && (em != null ==> 4 * words <= em.Length)
    requires forall k :: 0 <= k < |numbers| ==> numbers[k] < 32 * words
    modifies (if rm == null then {} else {rm}) + (if wm == null then {} else {wm}) + (if em == null then {} else {em})
    ensures (rm != null ==> Cleared(r0, words)) && (wm != null ==> Cleared(w0, words)) && (em != null ==> Cleared(em[..], words))
    ensures Shows(rm, r0, items, numbers, false, |items|) && Shows(wm, w0, items, numbers, true, |items|)
  {
    MaskClear(rm, words);
    MaskClear(wm, words);
    MaskClear(em, words);
    r0, w0 := if rm == null then [] else rm[..], if wm == null then [] else wm[..];
    forall k | 0 <= k < |numbers| ensures Octet(numbers[k]) < 4 * words { OctetInside(numbers[k], words); }
    SetReady(rm, wm, items, numbers, r0, w0);
  }

  /** Rewrite the masks from answered items. */
  method Finish(sockmap: seq<nat>, max: nat, rm: array?<Byte>, wm: array?<Byte>, em: array?<Byte>, answered: seq<Item>, numbers: seq<nat>,
                ghost st: Stack, ghost ascb: nat, ghost asid: nat, ghost r: Option<Octets>, ghost w: Option<Octets>)
    returns (ret: int)
    requires (rm == null || (rm != wm && rm != em)) && (wm == null || wm != em)
    requires forall m :: m in {rm, wm, em} && m != null ==> 4 * ((max + 31) / 32) <= m.Length
    requires r == Of(rm) && w == Of(wm) && numbers == Numbers(sockmap, r, w, max)
    requires Answers(answered, numbers, st, ascb, asid, sockmap, r, w)
    modifies (if rm == null then {} else {rm}) + (if wm == null then {} else {wm}) + (if em == null then {} else {em})
    ensures Rewritten(Of(rm), Of(wm), st, ascb, asid, sockmap, r, w, max)
    ensures ret == CountBits(Of(rm), Of(wm), max) && (em != null ==> Cleared(em[..], (max + 31) / 32))
  {
    NumbersAre(sockmap, r, w, max);
    ghost var r0, w0;
    r0, w0 := Rewrite((max + 31) / 32, rm, wm, em, answered, numbers);
    IsRewritten(rm, wm, r0, w0, answered, st, ascb, asid, sockmap, r, w, max);
    CountAgrees(answered, Of(rm), Of(wm), st, ascb, asid, sockmap, r, w, max, max);
    ret := CountReady(answered);
  }

  /** Nothing became ready in time: the masks come back empty. */
  method Blank(max: nat, rm: array?<Byte>, wm: array?<Byte>, em: array?<Byte>, unready: seq<Item>, numbers: seq<nat>) returns (ret: int)
    requires (rm == null || (rm != wm && rm != em)) && (wm == null || wm != em)
    requires forall a :: a in {rm, wm, em} && a != null ==> 4 * ((max + 31) / 32) <= a.Length
    requires |unready| == |numbers| && CountReady(unready) == 0 && forall k :: 0 <= k < |numbers| ==> numbers[k] < max
    modifies (if rm == null then {} else {rm}) + (if wm == null then {} else {wm}) + (if em == null then {} else {em})
    ensures ret == 0 && (em != null ==> Cleared(em[..], (max + 31) / 32))
    ensures forall i: nat :: i < max ==> !Any(Wanted(Of(rm), Of(wm), i))
  {
    ret := CountReady(unready);
    ghost var r0, w0;
    r0, w0 := Rewrite((max + 31) / 32, rm, wm, em, unready, numbers);
    StayClear(rm, wm, r0, w0, unready, numbers, max);
  }

  /** `nsf_select` from the answer on. */
  method OnAnswer(sockmap: seq<nat>, max: nat, rm: array?<Byte>, wm: array?<Byte>, em: array?<Byte>, c: Completion,
                  ghost st: Stack, ghost q: Request, ghost ascb: nat, ghost asid: nat)
    returns (ret: int, errno: int)
    requires max <= |sockmap| && (rm == null || (rm != wm && rm != em)) && (wm == null || wm != em)
    requires forall a :: a in {rm, wm, em} && a != null ==> 4 * ((max + 31) / 32) <= a.Length
    requires q.verb.Select? && q.verb.items == ItemsOf(sockmap, Of(rm), Of(wm), max)
    requires c.retcode == RETERR || Truthful(st, c, q, ascb, asid)
    modifies (if rm == null then {} else {rm}) + (if wm == null then {} else {wm}) + (if em == null then {} else {em})
    ensures ret == c.retcode && errno == c.errno
    ensures ret > 0 ==>
      Rewritten(Of(rm), Of(wm), st, ascb, asid, sockmap, old(Of(rm)), old(Of(wm)), max) && ret == CountBits(Of(rm), Of(wm), max)
    ensures ret == 0 ==> forall i: nat :: i < max ==> !Any(Wanted(Of(rm), Of(wm), i))
    ensures ret >= 0 && em != null ==> Cleared(em[..], (max + 31) / 32)
    ensures ret < 0 ==> Of(rm) == old(Of(rm)) && Of(wm) == old(Of(wm)) && Of(em) == old(Of(em))
  {
    ghost var r, w := Of(rm), Of(wm);
    var items, numbers := BuildItems(sockmap, max, rm, wm);
    errno := c.errno;
    if c.retcode < 0 {
      return RETERR, errno;
    }
    NumbersAre(sockmap, r, w, max);
    if c.retcode > 0 {
      AnswersScan(st, ascb, asid, sockmap, r, w, max);
      ret := Finish(sockmap, max, rm, wm, em, c.items, numbers, st, ascb, asid, r, w);
      CountAgrees(c.items, Of(rm), Of(wm), st, ascb, asid, sockmap, r, w, max, max);
    } else {
      ret := Blank(max, rm, wm, em, c.items, numbers);
    }
  }

  /** Completion `m` of the log is the answer to the request submitted at step `k`, a SELECT for `items`. */
  ghost predicate AnswerTo(ss: seq<Stack>, acts: seq<Action>, k: nat, n: nat, m: nat, items: seq<Item>) {
    && Run(ss, acts) && Initial(ss[0]) && k < n <= |acts| && acts[k].Submit? && acts[k].q.verb.Select? && acts[k].q.verb.items == items
    && m < |ss[n].log| && ss[n].log[m].rid == acts[k].q.rid
  }

  /** `nsf_select`, on the answer `c` the executive gave to the request built from the masks, in whatever run.
      It was made at some step `j`: number `n` is set in a mask exactly if it was asked for, is a mapped number
      below the clamped limit, and is ready for that direction in the state `j` began in, as the caller it was
      dispatched for may see it; the value returned counts the numbers set. On a failure the masks are as they were,
      and there is a cause: step `j` tore down a socket asked about, or refused the request as it was dispatched. */
  method Select(sockmap: seq<nat>, gmax: nat, maxsoc: int, rm: array?<Byte>, wm: array?<Byte>, em: array?<Byte>, c: Completion,
                ghost ss: seq<Stack>, ghost acts: seq<Action>, ghost k: nat, ghost n: nat, ghost m: nat)
    returns (ret: int, errno: int, ghost d: nat, ghost j: nat)
    requires gmax <= |sockmap| == SOC_LIMIT
    requires (rm == null || (rm != wm && rm != em)) && (wm == null || wm != em)
    requires forall a :: a in {rm, wm, em} && a != null ==> 4 * ((Clamp(maxsoc, gmax) + 31) / 32) <= a.Length
    requires AnswerTo(ss, acts, k, n, m, ItemsOf(sockmap, Of(rm), Of(wm), Clamp(maxsoc, gmax))) && c == ss[n].log[m]
    modifies (if rm == null then {} else {rm}) + (if wm == null then {} else {wm}) + (if em == null then {} else {em})
    ensures d <= j < n && DispatchedAt(ss, acts, d, acts[k].q) && |ss[j].log| <= m < |ss[j + 1].log|
    ensures ret == c.retcode && errno == c.errno
    ensures ret > 0 ==>
      && Rewritten(Of(rm), Of(wm), ss[j], acts[d].ascb, acts[d].asid, sockmap, old(Of(rm)), old(Of(wm)), Clamp(maxsoc, gmax))
      && ret == CountBits(Of(rm), Of(wm), Clamp(maxsoc, gmax))
    ensures ret == 0 ==> forall i: nat :: i < Clamp(maxsoc, gmax) ==> !Any(Wanted(Of(rm), Of(wm), i))
    ensures ret >= 0 && em != null ==> Cleared(em[..], (Clamp(maxsoc, gmax) + 31) / 32)
    ensures ret == 0 ==> acts[k].q.verb.timed
    ensures ret < 0 ==> ret == RETERR && (Excused(ss[j], ss[j + 1], c, acts[k].q) || (j == d && Refused(ss[d], c, acts[k].q)))
    ensures ret < 0 ==> Of(rm) == old(Of(rm)) && Of(wm) == old(Of(wm)) && Of(em) == old(Of(em))
  {
    d, j := SelectHonest(ss, acts, k, n, m, acts[k].q);
    ret, errno := OnAnswer(sockmap, Clamp(maxsoc, gmax), rm, wm, em, c, ss[j], acts[k].q, acts[d].ascb, acts[d].asid);
  }
}
