/** The slot pool's in-flight count: what it is worth to the server that reads it. */
module SlotCount {
  import opened Options
  import opened Bytes
  import opened SlotRules
  import opened SlotPool
  import opened SlotSafety

  // ---- counting ---------------------------------------------------------------------------------------

  function Sum(bs: seq<bool>): nat {
    if bs == [] then 0 else Sum(bs[..|bs| - 1]) + if bs[|bs| - 1] then 1 else 0
  }

  lemma {:induction false} SumUpdate(bs: seq<bool>, i: nat, b: bool)
    requires i < |bs|
    ensures Sum(bs[i := b]) + (if bs[i] then 1 else 0) == Sum(bs) + if b then 1 else 0
  {
    var n := |bs| - 1;
    if i < n {
      SumUpdate(bs[..n], i, b);
      assert bs[i := b][..n] == bs[..n][i := b];
    } else {
      assert bs[i := b][..n] == bs[..n];
    }
  }

  lemma {:induction false} SumMono(bs: seq<bool>, cs: seq<bool>)
    requires |bs| == |cs| && forall i :: 0 <= i < |bs| && bs[i] ==> cs[i]
    ensures Sum(bs) <= Sum(cs)
  {
    if bs != [] { SumMono(bs[..|bs| - 1], cs[..|cs| - 1]); }
  }

  lemma {:induction false} SumSome(bs: seq<bool>, i: nat)
    requires i < |bs| && bs[i]
    ensures Sum(bs) > 0
  {
    if i < |bs| - 1 { SumSome(bs[..|bs| - 1], i); }
  }

  // ---- what is owed to the count ----------------------------------------------------------------------

  function Insiders(clients: seq<Client>): (r: seq<bool>)
    ensures |r| == |clients|
  {
    seq(|clients|, c requires 0 <= c < |clients| => clients[c].alive && Inside(clients[c].pc))
  }

  predicate Published(st: SlotState) { st == Pending || st == Held || st == Done }

  /** A published slot with no living owner: whoever counted itself in there is gone. */
  ghost predicate Stray(s: Sys, i: nat)
    requires i < |s.slots|
  {
    Published(s.slots[i].state) && Unowned(s.clients, i)
  }

  ghost function Strays(s: Sys): (r: seq<bool>)
    ensures |r| == |s.slots| && forall i :: 0 <= i < |r| ==> r[i] == Stray(s, i)
  {
    seq(|s.slots|, i requires 0 <= i < |s.slots| => Stray(s, i))
  }

  /** The server has taken a stray slot over and not given its count back yet. */
  predicate Owing(pc: ServerPc) { pc.Clear? || pc.Release? || pc.Tally? || pc.Debit? }

  ghost function Owed(s: Sys): nat {
    Sum(Insiders(s.clients)) + Sum(Strays(s)) + if Owing(s.v.pc) then 1 else 0
  }

  /** The count covers every living client inside. */
  ghost predicate Covers(s: Sys) {
    Owed(s) <= s.inflight
  }

  /** The server's store does not overwrite a count that has moved since its load. */
  predicate Lossless(s: Sys, a: Action) {
    a.ServerStep? && s.v.pc.Debit? ==> s.inflight == s.v.pc.n
  }

  /** No slot becomes stray. */
  ghost predicate NoNewStray(s: Sys, t: Sys) {
    |t.slots| == |s.slots| && forall i :: 0 <= i < |s.slots| && Stray(t, i) ==> Stray(s, i)
  }

  lemma StraysFall(s: Sys, t: Sys)
    requires NoNewStray(s, t)
    ensures Sum(Strays(t)) <= Sum(Strays(s))
  {
    SumMono(Strays(t), Strays(s));
  }

  lemma InsiderMoves(s: Sys, t: Sys, c: nat)
    requires c < |s.clients| == |t.clients| && t.clients == s.clients[c := t.clients[c]]
    ensures Sum(Insiders(t.clients)) + (if Insiders(s.clients)[c] then 1 else 0)
         == Sum(Insiders(s.clients)) + if Insiders(t.clients)[c] then 1 else 0
  {
    assert Insiders(t.clients) == Insiders(s.clients)[c := Insiders(t.clients)[c]];
    SumUpdate(Insiders(s.clients), c, Insiders(t.clients)[c]);
  }

  // ---- clients ----------------------------------------------------------------------------------------

  lemma ClientStrays(s: Sys, c: nat, request: Octets)
    requires Inv(s) && ClientEnabled(s, c)
    ensures NoNewStray(s, Step(s, ClientStep(c, request)))
  {
    var t := Step(s, ClientStep(c, request));
    assert ClientOk(s, c);
    forall i | 0 <= i < |s.slots| && Stray(t, i) ensures Stray(s, i) {
      assert !Owns(t.clients[c], i);
      forall d | 0 <= d < |s.clients| ensures !Owns(s.clients[d], i) { assert !Owns(t.clients[d], i); }
    }
  }

  lemma ClientCovers(s: Sys, c: nat, request: Octets)
    requires Inv(s) && Covers(s) && ClientEnabled(s, c)
    ensures Covers(Step(s, ClientStep(c, request)))
  {
    var t := Step(s, ClientStep(c, request));
    ClientStrays(s, c, request);
    StraysFall(s, t);
    InsiderMoves(s, t, c);
    if s.clients[c].pc.Back? { SumSome(Insiders(s.clients), c); }
  }

  // ---- the server -------------------------------------------------------------------------------------

  lemma TakeOverCovers(s: Sys, t: Sys, i: nat)
    requires Covers(s) && t.clients == s.clients && t.inflight == s.inflight && !Owing(s.v.pc) && i < |s.slots| == |t.slots|
    requires Stray(s, i) && t.slots == s.slots[i := t.slots[i]] && t.slots[i].state == Claimed
    ensures Covers(t)
  {
    assert Strays(t) == Strays(s)[i := false];
    SumUpdate(Strays(s), i, false);
  }

  lemma QuietCovers(s: Sys, t: Sys)
    requires Covers(s) && t.clients == s.clients && t.inflight == s.inflight && NoNewStray(s, t) && (Owing(t.v.pc) ==> Owing(s.v.pc))
    ensures Covers(t)
  {
    StraysFall(s, t);
  }

  lemma DebitCovers(s: Sys)
    requires Covers(s) && s.v.pc.Debit? && s.inflight == s.v.pc.n && ServerEnabled(s)
    ensures Covers(Step(s, ServerStep))
  {
    var t := Step(s, ServerStep);
    assert NoNewStray(s, t);
    StraysFall(s, t);
  }

  lemma ServerCovers(s: Sys)
    requires Inv(s) && Covers(s) && ServerEnabled(s) && Lossless(s, ServerStep)
    ensures Covers(Step(s, ServerStep))
  {
    var t := Step(s, ServerStep);
    if s.v.pc.Debit? {
      DebitCovers(s);
    } else if Owing(t.v.pc) && !Owing(s.v.pc) {
      TakeOverCovers(s, t, t.v.pc.i);
    } else {
      QuietCovers(s, t);
    }
  }

  // ---- the environment --------------------------------------------------------------------------------

  /** A client that dies inside leaves its count behind: at a published slot for the reaper, else for good. */
  lemma DiesCovers(s: Sys, c: nat)
    requires Inv(s) && Covers(s) && c < |s.clients|
    ensures Covers(Step(s, Dies(c)))
  {
    var t := Step(s, Dies(c));
    InsiderMoves(s, t, c);
    assert ClientOk(s, c);
    forall j | 0 <= j < |s.slots| && Stray(t, j) && !(s.clients[c].alive && SlotOf(s.clients[c].pc) == Some(j)) ensures Stray(s, j) {
      forall d | 0 <= d < |s.clients| ensures !Owns(s.clients[d], j) { if d != c { assert !Owns(t.clients[d], j); } }
    }
    if s.clients[c].alive && SlotOf(s.clients[c].pc).Some? {
      var i := SlotOf(s.clients[c].pc).value;
      assert !Stray(s, i) by { assert Owns(s.clients[c], i); }
      SumUpdate(Strays(s), i, Strays(t)[i]);
      SumMono(Strays(t), Strays(s)[i := Strays(t)[i]]);
    } else {
      StraysFall(s, t);
    }
  }

  lemma BornCovers(s: Sys, a: Action)
    requires Covers(s) && a.Born? && Enabled(s, a)
    ensures Covers(Step(s, a))
  {
    var t := Step(s, a);
    InsiderMoves(s, t, a.c);
    forall i | 0 <= i < |s.slots| && Stray(t, i) ensures Stray(s, i) {
      forall d | 0 <= d < |s.clients| ensures !Owns(s.clients[d], i) { assert !Owns(t.clients[d], i); }
    }
    StraysFall(s, t);
  }

  lemma PostFailsCovers(s: Sys, c: nat)
    requires Covers(s) && Enabled(s, PostFails(c))
    ensures Covers(Step(s, PostFails(c)))
  {
    var t := Step(s, PostFails(c));
    InsiderMoves(s, t, c);
    forall i | 0 <= i < |s.slots| && Stray(t, i) ensures Stray(s, i) {
      forall d | 0 <= d < |s.clients| ensures !Owns(s.clients[d], i) { assert !Owns(t.clients[d], i); }
    }
    StraysFall(s, t);
  }

  /** While no decrement of the server's loses an update, the count covers every client inside. */
  lemma CountKept(s: Sys, a: Action)
    requires Inv(s) && Covers(s) && Enabled(s, a) && Lossless(s, a)
    ensures Covers(Step(s, a))
  {
    match a {
      case ClientStep(c, request) => ClientCovers(s, c, request);
      case ServerStep => ServerCovers(s);
      case Dies(c) => DiesCovers(s, c);
      case Born(_, _, _) => BornCovers(s, a);
      case PostFails(c) => PostFailsCovers(s, c);
      case _ => QuietCovers(s, Step(s, a));
    }
  }

  /** A count of zero then means that nobody is inside. */
  lemma ZeroMeansNobody(s: Sys)
    requires Covers(s) && s.inflight == 0
    ensures NobodyInside(s.clients)
  {
    forall c | 0 <= c < |s.clients| && s.clients[c].alive ensures !Inside(s.clients[c].pc) {
      if Inside(s.clients[c].pc) { SumSome(Insiders(s.clients), c); }
    }
  }

  lemma {:induction false} SumNone(bs: seq<bool>)
    requires forall i :: 0 <= i < |bs| ==> !bs[i]
    ensures Sum(bs) == 0
  {
    if bs != [] { SumNone(bs[..|bs| - 1]); }
  }

  lemma FreshCovers(s: Sys)
    requires Fresh(s)
    ensures Covers(s)
  {
    SumNone(Insiders(s.clients));
    SumNone(Strays(s));
  }
}
