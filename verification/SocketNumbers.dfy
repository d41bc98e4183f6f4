/** The facade's table from socket numbers to descriptors (src/nsfeza.c), and the signed return code that
    descriptors travel in. */
module SocketNumbers {
  import opened Options
  import opened Sockets

  const NUMBERS: nat := 64

  /** The unsigned word behind a return code. */
  function AsWord(rc: int): nat
    requires -0x8000_0000 <= rc < 0x8000_0000
  {
    if rc < 0 then rc + WORD else rc
  }

  lemma DescSplit(gen: nat, i: nat)
    requires gen < 0x1_0000 && i < 0x1_0000
    ensures Desc(gen, i) < WORD && (Desc(gen, i) < 0x8000_0000 <==> gen < 0x8000)
  {
  }

  /** A created socket's descriptor survives the trip through the return code, and is told apart from a
      failure exactly while its slot's generation is below 0x8000. */
  lemma CarriedIff(gen: nat, i: nat)
    requires 0 < gen < 0x1_0000 && i < SOC_MAX
    ensures var rc := AsInt(Desc(gen, i));
      -0x8000_0000 <= rc < 0x8000_0000 && AsWord(rc) == Desc(gen, i) && (rc >= 0 <==> gen < 0x8000)
  {
    DescSplit(gen, i);
  }

  ghost predicate Injective(m: seq<nat>) {
    forall i, j :: 0 <= i < j < |m| && m[i] != 0 ==> m[i] != m[j]
  }

  class Client {
    var maxsoc: nat
    const sockmap: array<nat>

    /** No two numbers name the same socket. */
    ghost predicate Valid()
      reads this, sockmap
    {
      sockmap.Length == NUMBERS && maxsoc <= NUMBERS && Injective(sockmap[..])
    }

    /** `nsf_initapi`: the caller's MAXSOC, clamped; 0 or less asks for all. */
    constructor (asked: int)
      ensures Valid() && fresh(sockmap) && maxsoc == (if asked <= 0 || asked > 64 then 64 else asked)
      ensures forall i :: 0 <= i < NUMBERS ==> sockmap[i] == 0
    {
      maxsoc := if asked <= 0 then NUMBERS else if asked > NUMBERS then NUMBERS else asked;
      sockmap := new nat[NUMBERS](i => 0);
    }

    /** `eza_desc`: 0 for a number out of range or not open. */
    method EzaDesc(s: int) returns (desc: nat)
      requires Valid()
      ensures desc == if 0 <= s < maxsoc then sockmap[s] else 0
    {
      desc := if s < 0 || s >= maxsoc then 0 else sockmap[s];
    }

    /** The lowest free number. */
    method Reserve() returns (n: Option<nat>)
      requires Valid()
      ensures n.Some? ==> n.value < maxsoc && sockmap[n.value] == 0 && forall i :: 0 <= i < n.value ==> sockmap[i] != 0
      ensures n.None? ==> forall i :: 0 <= i < maxsoc ==> sockmap[i] != 0
    {
      for i := 0 to maxsoc
        invariant forall j :: 0 <= j < i ==> sockmap[j] != 0
      {
        if sockmap[i] == 0 {
          return Some(i);
        }
      }
      return None;
    }

    /** `nsf_socket` and `nsf_accept`: the number is reserved before the request goes out, so a full table
        strands nothing; `reply` is what the request returns if it goes out. */
    method Open(reply: int) returns (s: int, issued: bool)
      requires Valid() && -0x8000_0000 <= reply < 0x8000_0000 && reply != 0
      requires reply > 0 ==> AsWord(reply) !in sockmap[..]
      modifies sockmap
      ensures Valid() && issued == (exists i :: 0 <= i < maxsoc && old(sockmap[i]) == 0)
      ensures s == -1 <==> !issued || reply < 0
      ensures s == -1 ==> sockmap[..] == old(sockmap[..])
      ensures s != -1 ==> 0 <= s < maxsoc && old(sockmap[s]) == 0 && sockmap[..] == old(sockmap[..])[s := AsWord(reply)]
      ensures s != -1 ==> forall i :: 0 <= i < s ==> sockmap[i] != 0
    {
      var n := Reserve();
      if n.None? {
        return -1, false;
      }
      if reply < 0 {
        return -1, true;
      }
      sockmap[n.value] := AsWord(reply);
      return n.value, true;
    }

    /** `nsf_close`: the number is free afterwards whatever the request returned. */
    method Close(s: int) returns (known: bool)
      requires Valid()
      modifies sockmap
      ensures Valid() && known == (0 <= s < maxsoc && old(sockmap[s]) != 0)
      ensures sockmap[..] == if known then old(sockmap[..])[s := 0] else old(sockmap[..])
    {
      var desc := EzaDesc(s);
      if desc == 0 {
        return false;
      }
      sockmap[s] := 0;
      return true;
    }
  }

  /** SOCKET through the facade: a socket the stack has just created gets a number exactly if one is free
      and its generation is below 0x8000. Beyond that the caller is told of a failure and the socket
      stays open without a number. */
  method OpenCreated(c: Client, gen: nat, i: nat) returns (s: int, stranded: bool)
    requires c.Valid() && 0 < gen < 0x1_0000 && i < SOC_MAX && Desc(gen, i) !in c.sockmap[..]
    requires exists n :: 0 <= n < c.maxsoc && c.sockmap[n] == 0
    modifies c.sockmap
    ensures c.Valid() && stranded == (gen >= 0x8000)
    ensures stranded ==> s == -1 && c.sockmap[..] == old(c.sockmap[..])
    ensures !stranded ==> 0 <= s < c.maxsoc && c.sockmap[..] == old(c.sockmap[..])[s := Desc(gen, i)]
  {
    CarriedIff(gen, i);
    var issued;
    s, issued := c.Open(AsInt(Desc(gen, i)));
    stranded := s == -1;
  }
}
