/** The numeric parsers of the PROFILE reader (src/nsfcfg.c): each accepts exactly the numerals in range,
    and inverts a printer. */
module Numerals {
  import opened Options
  import opened Bytes

  // ---- digits ---------------------------------------------------------------------------------------------

  predicate IsDigit(c: char) { '0' <= c <= '9' }

  function DigitOf(c: char): nat
    requires IsDigit(c)
  {
    c as int - '0' as int
  }

  predicate AllDigits(s: string) { forall i :: 0 <= i < |s| ==> IsDigit(s[i]) }

  function Dec(s: string): nat
    requires AllDigits(s)
  {
    if s == "" then 0 else Dec(s[..|s| - 1]) * 10 + DigitOf(s[|s| - 1])
  }

  lemma {:induction false} DecGrows(s: string, i: nat)
    requires AllDigits(s) && i <= |s|
    ensures Dec(s[..i]) <= Dec(s)
  {
    if i == |s| {
      assert s[..i] == s;
    } else {
      DecGrows(s[..|s| - 1], i);
      assert s[..|s| - 1][..i] == s[..i];
    }
  }

  lemma DecNext(s: string, i: nat)
    requires i < |s| && AllDigits(s[..i]) && IsDigit(s[i])
    ensures AllDigits(s[..i + 1]) && Dec(s[..i + 1]) == Dec(s[..i]) * 10 + DigitOf(s[i])
  {
    assert s[..i + 1][..i] == s[..i];
  }

  function Chr(d: nat): char
    requires d < 10
  {
    ('0' as int + d) as char
  }

  /** The printer: no sign, no leading zero. */
  function Decimal(n: nat): string {
    if n < 10 then [Chr(n)] else Decimal(n / 10) + [Chr(n % 10)]
  }

  lemma {:induction false} DecimalReads(n: nat)
    ensures Decimal(n) != "" && AllDigits(Decimal(n)) && Dec(Decimal(n)) == n
  {
    if n < 10 {
      assert Decimal(n)[..0] == "";
    } else {
      DecimalReads(n / 10);
      assert Decimal(n)[..|Decimal(n)| - 1] == Decimal(n / 10);
    }
  }

  // ---- 32-bit decimals ------------------------------------------------------------------------------------

  /** The numerals `cfg_parse_uint` is meant to take. */
  function Uint(s: string): Option<Word> {
    if s != "" && AllDigits(s) && Dec(s) < 0x1_0000_0000 then Some(Dec(s)) else None
  }

  lemma UintPrints(n: Word)
    ensures Uint(Decimal(n)) == Some(n)
  {
    DecimalReads(n);
  }

  /** `cfg_parse_uint`: the overflow test, made before the multiplication, refuses exactly what does not
      fit 32 bits. */
  method ParseUint(s: string) returns (r: Option<Word>)
    ensures r == Uint(s)
  {
    var v: Word := 0;
    for i := 0 to |s|
      invariant AllDigits(s[..i]) && v == Dec(s[..i])
    {
      if !IsDigit(s[i]) {
        return None;
      }
      var d := DigitOf(s[i]);
      DecNext(s, i);
      if v > (0xFFFF_FFFF - d) / 10 {
        if AllDigits(s) { DecGrows(s, i + 1); }
        return None;
      }
      v := v * 10 + d;
    }
    assert s[..|s|] == s;
    if s == "" {
      return None;
    }
    r := Some(v);
  }

  // ---- dotted decimals --------------------------------------------------------------------------------------

  predicate IsOctet(s: string) { s != "" && AllDigits(s) && Dec(s) <= 255 }

  function Join(parts: seq<string>): string
    requires parts != []
  {
    if |parts| == 1 then parts[0] else parts[0] + "." + Join(parts[1..])
  }

  /** `s` is `n` octet numerals with single dots between them. */
  predicate Dotted(s: string, parts: seq<string>, n: nat)
    requires n > 0
  {
    |parts| == n && (forall i :: 0 <= i < n ==> IsOctet(parts[i])) && s == Join(parts)
  }

  /** The octets packed behind `v`, first octet highest. */
  function Fold(v: nat, parts: seq<string>): nat
    requires forall i :: 0 <= i < |parts| ==> IsOctet(parts[i])
    decreases |parts|
  {
    if parts == [] then v
    else
      assert IsOctet(parts[0]);
      Fold(v * 0x100 + Dec(parts[0]), parts[1..])
  }

  /** How many digits `s` starts with. */
  function Run(s: string): (n: nat)
    ensures n <= |s| && AllDigits(s[..n]) && (n < |s| ==> !IsDigit(s[n]))
  {
    if s == "" || !IsDigit(s[0]) then 0
    else
      var n := Run(s[1..]);
      assert forall i :: 0 < i < 1 + n ==> s[i] == s[1..][..n][i - 1];
      1 + n
  }

  lemma RunAt(s: string, k: nat)
    requires k <= Run(s)
    ensures k < Run(s) <==> k < |s| && IsDigit(s[k])
  {
    if k < Run(s) { assert s[..Run(s)][k] == s[k]; }
  }

  lemma {:induction false} RunIs(s: string, head: string)
    requires head <= s && AllDigits(head) && (|head| < |s| ==> !IsDigit(s[|head|]))
    ensures Run(s) == |head|
  {
    if head != "" {
      assert head[0] == s[0] && head[1..] <= s[1..];
      RunIs(s[1..], head[1..]);
    }
  }

  lemma JoinSplits(parts: seq<string>)
    requires |parts| > 1
    ensures Join(parts) == parts[0] + ("." + Join(parts[1..]))
    ensures var n := |parts[0]|; n < |Join(parts)| && Join(parts)[n] == '.' && Join(parts)[n + 1..] == Join(parts[1..])
  {
    var rest := "." + Join(parts[1..]);
    assert Join(parts) == parts[0] + rest;
    assert Join(parts)[|parts[0]|] == rest[0] && Join(parts)[|parts[0]| + 1..] == rest[1..];
    assert rest[1..] == Join(parts[1..]);
  }

  /** The first numeral of a dotted string is its leading run of digits. */
  lemma FirstIsRun(s: string, parts: seq<string>, n: nat)
    requires n > 0 && Dotted(s, parts, n)
    ensures Run(s) == |parts[0]| && s[..Run(s)] == parts[0]
    ensures if n == 1 then Run(s) == |s| else Run(s) < |s| && s[Run(s)] == '.' && Dotted(s[Run(s) + 1..], parts[1..], n - 1)
  {
    assert IsOctet(parts[0]);
    if n > 1 { JoinSplits(parts); }
    RunIs(s, parts[0]);
  }

  lemma DottedCons(s: string, head: string, rest: string, parts: seq<string>, n: nat)
    requires n > 0 && IsOctet(head) && s == head + "." + rest && Dotted(rest, parts, n)
    ensures Dotted(s, [head] + parts, n + 1)
  {
    assert ([head] + parts)[1..] == parts;
  }

  /** The greedy reading: take the digits there are, then insist on what must follow. */
  function Greedy(s: string, n: nat, v: nat): Option<nat>
    requires n > 0
    decreases |s|
  {
    var d := Run(s);
    if IsOctet(s[..d]) then Behind(s[d..], n - 1, v * 0x100 + Dec(s[..d])) else None
  }

  function Behind(t: string, n: nat, v: nat): Option<nat>
    decreases |t|
  {
    if n == 0 then (if t == "" then Some(v) else None)
    else if t != "" && t[0] == '.' then Greedy(t[1..], n, v)
    else None
  }

  /** It reads every dotted string, to its value ... */
  lemma {:induction false} GreedyReads(s: string, parts: seq<string>, n: nat, v: nat)
    requires n > 0 && Dotted(s, parts, n)
    ensures Greedy(s, n, v) == Some(Fold(v, parts))
    decreases n
  {
    FirstIsRun(s, parts, n);
    var w := v * 0x100 + Dec(parts[0]);
    if n == 1 {
      assert parts[1..] == [];
    } else {
      assert s[Run(s)..][1..] == s[Run(s) + 1..];
      GreedyReads(s[Run(s) + 1..], parts[1..], n - 1, w);
    }
  }

  /** ... and nothing else. */
  lemma {:induction false} GreedyOnly(s: string, n: nat, v: nat) returns (parts: seq<string>)
    requires n > 0 && Greedy(s, n, v).Some?
    ensures Dotted(s, parts, n)
    decreases n
  {
    var d := Run(s);
    var head, t := s[..d], s[d..];
    if n == 1 {
      parts := [head];
      assert s == head;
    } else {
      var more := GreedyOnly(t[1..], n - 1, v * 0x100 + Dec(head));
      assert s == head + "." + t[1..];
      DottedCons(s, head, t[1..], more, n - 1);
      parts := [head] + more;
    }
  }

  function Ipv4(s: string): Option<nat> { Greedy(s, 4, 0) }

  /** An address is read exactly from four octet numerals with single dots between, and nothing around. */
  lemma Ipv4Iff(s: string)
    ensures Ipv4(s).Some? <==> exists parts: seq<string> :: Dotted(s, parts, 4)
    ensures forall parts: seq<string> :: Dotted(s, parts, 4) ==> Ipv4(s) == Some(Fold(0, parts))
  {
    if Ipv4(s).Some? { var parts := GreedyOnly(s, 4, 0); }
    forall parts: seq<string> | Dotted(s, parts, 4) ensures Ipv4(s) == Some(Fold(0, parts)) { GreedyReads(s, parts, 4, 0); }
  }

  function Scaled(top: nat, n: nat): nat
    decreases n
  {
    if n == 0 then top else Scaled(top * 0x100, n - 1)
  }

  lemma {:induction false} GreedyRange(s: string, n: nat, v: nat, top: nat)
    requires n > 0 && v < top && Greedy(s, n, v).Some?
    ensures Greedy(s, n, v).value < Scaled(top, n)
    decreases n
  {
    var d := Run(s);
    if n > 1 { GreedyRange(s[d..][1..], n - 1, v * 0x100 + Dec(s[..d]), top * 0x100); }
    else { assert Scaled(top, 1) == Scaled(top * 0x100, 0); }
  }

  /** What is read fits a word. */
  lemma AddressRange(s: string)
    ensures Ipv4(s).Some? ==> Ipv4(s).value <= 0xFFFF_FFFF
  {
    assert Scaled(1, 4) == Scaled(0x1_0000, 2) == 0x1_0000_0000;
    if Ipv4(s).Some? { GreedyRange(s, 4, 0, 1); }
  }

  lemma IsDotted(s: string, parts: seq<string>)
    requires Dotted(s, parts, 4)
    ensures Ipv4(s) == Some(Fold(0, parts))
  {
    Ipv4Iff(s);
  }

  lemma FoldLast(v: nat, s: string)
    requires IsOctet(s)
    ensures Fold(v, [s]) == v * 0x100 + Dec(s)
  {
    assert [s][1..] == [];
  }

  lemma FoldNext(v: nat, s: string, more: seq<string>)
    requires IsOctet(s) && forall i :: 0 <= i < |more| ==> IsOctet(more[i])
    ensures Fold(v, [s] + more) == Fold(v * 0x100 + Dec(s), more)
  {
    assert ([s] + more)[1..] == more;
  }

  lemma FoldTwo(v: nat, a: string, b: string, w: nat)
    requires IsOctet(a) && IsOctet(b) && w == v * 0x100 + Dec(a)
    ensures Fold(v, [a, b]) == w * 0x100 + Dec(b)
  {
    assert [a, b] == [a] + [b];
    FoldNext(v, a, [b]);
    FoldLast(w, b);
  }

  lemma FoldThree(v: nat, a: string, b: string, c: string, w: nat, x: nat)
    requires IsOctet(a) && IsOctet(b) && IsOctet(c) && w == v * 0x100 + Dec(a) && x == w * 0x100 + Dec(b)
    ensures Fold(v, [a, b, c]) == x * 0x100 + Dec(c)
  {
    assert [a, b, c] == [a] + [b, c];
    FoldNext(v, a, [b, c]);
    FoldTwo(w, b, c, x);
  }

  lemma FoldFour(a: string, b: string, c: string, d: string, w: nat, x: nat)
    requires IsOctet(a) && IsOctet(b) && IsOctet(c) && IsOctet(d) && w == Dec(a) * 0x100 + Dec(b) && x == w * 0x100 + Dec(c)
    ensures Fold(0, [a, b, c, d]) == x * 0x100 + Dec(d)
  {
    assert [a, b, c, d] == [a] + [b, c, d];
    FoldNext(0, a, [b, c, d]);
    FoldThree(Dec(a), b, c, d, w, x);
  }

  lemma FoldParts(parts: seq<string>, w: nat, x: nat)
    requires |parts| == 4 && IsOctet(parts[0]) && IsOctet(parts[1]) && IsOctet(parts[2]) && IsOctet(parts[3])
    requires w == Dec(parts[0]) * 0x100 + Dec(parts[1]) && x == w * 0x100 + Dec(parts[2])
    ensures Dotted(Join(parts), parts, 4) && Fold(0, parts) == x * 0x100 + Dec(parts[3])
  {
    assert parts == [parts[0], parts[1], parts[2], parts[3]];
    FoldFour(parts[0], parts[1], parts[2], parts[3], w, x);
  }

  lemma PartsRead(parts: seq<string>, w: nat, x: nat)
    requires |parts| == 4 && IsOctet(parts[0]) && IsOctet(parts[1]) && IsOctet(parts[2]) && IsOctet(parts[3])
    requires w == Dec(parts[0]) * 0x100 + Dec(parts[1]) && x == w * 0x100 + Dec(parts[2])
    ensures Ipv4(Join(parts)) == Some(x * 0x100 + Dec(parts[3]))
  {
    FoldParts(parts, w, x);
    IsDotted(Join(parts), parts);
  }

  predicate Numeral(s: string, n: Byte) { IsOctet(s) && Dec(s) == n }

  lemma DecimalOctet(n: Byte)
    ensures Numeral(Decimal(n), n)
  {
    DecimalReads(n);
  }

  /** Four octet numerals, leading zeros or not, are read as the address they spell. */
  lemma Ipv4Reads(parts: seq<string>, a: Byte, b: Byte, c: Byte, d: Byte)
    requires |parts| == 4 && Numeral(parts[0], a) && Numeral(parts[1], b) && Numeral(parts[2], c) && Numeral(parts[3], d)
    ensures Ipv4(Join(parts)) == Some(((a * 0x100 + b) * 0x100 + c) * 0x100 + d)
  {
    PartsRead(parts, a * 0x100 + b, (a * 0x100 + b) * 0x100 + c);
  }

  /** The digits at `from`, as far as they go, as one octet. */
  method ParseOctet(s: string, from: nat) returns (ok: bool, o: nat, next: nat)
    requires from <= |s|
    ensures from <= next <= |s|
    ensures ok <==> IsOctet(s[from..][..Run(s[from..])])
    ensures ok ==> next == from + Run(s[from..]) && o == Dec(s[from..][..Run(s[from..])])
  {
    ghost var t := s[from..];
    ghost var n := Run(t);
    o, next := 0, from;
    while next < |s| && IsDigit(s[next])
      invariant from <= next <= from + n && AllDigits(t[..next - from]) && o == Dec(t[..next - from]) <= 255
    {
      assert s[next] == t[next - from];
      RunAt(t, next - from);
      DecNext(t, next - from);
      o := o * 10 + DigitOf(s[next]);
      next := next + 1;
      if o > 255 {
        DecGrows(t[..n], next - from);
        assert t[..n][..next - from] == t[..next - from];
        return false, o, next;
      }
    }
    RunAt(t, next - from);
    ok := next > from;
  }

  /** What is still to be read: an octet first, or a dot before it. */
  function ToRead(t: string, first: bool, left: nat, v: nat): Option<nat>
    requires first ==> left > 0
  {
    if first then Greedy(t, left, v) else Behind(t, left, v)
  }

  method ReadOctet(s: string, from: nat, left: nat, v: nat) returns (ok: bool, w: nat, at: nat)
    requires from <= |s| && left > 0
    ensures from <= at <= |s|
    ensures Greedy(s[from..], left, v) == if ok then Behind(s[at..], left - 1, w) else None
  {
    var o;
    ok, o, at := ParseOctet(s, from);
    w := v * 0x100 + o;
    if ok { assert s[from..][at - from..] == s[at..]; }
  }

  /** One octet, behind a dot unless it is the first. */
  method NextOctet(s: string, from: nat, first: bool, left: nat, v: nat) returns (ok: bool, w: nat, at: nat)
    requires from <= |s| && left > 0
    ensures from <= at <= |s|
    ensures ToRead(s[from..], first, left, v) == if ok then Behind(s[at..], left - 1, w) else None
  {
    if first {
      ok, w, at := ReadOctet(s, from, left, v);
    } else {
      if from == |s| || s[from] != '.' {
        return false, v, from;
      }
      assert s[from..][1..] == s[from + 1..];
      ok, w, at := ReadOctet(s, from + 1, left, v);
    }
  }

  /** `cfg_parse_ipv4`: one octet after another, first octet highest. */
  method ParseIpv4(s: string) returns (r: Option<nat>)
    ensures r == Ipv4(s)
  {
    r := ParseOctets(s, 4);
  }

  method ParseOctets(s: string, n: nat) returns (r: Option<nat>)
    requires n > 0
    ensures r == Greedy(s, n, 0)
  {
    var v, at := 0, 0;
    assert s[0..] == s;
    for oct := 0 to n
      invariant 0 <= at <= |s| && Greedy(s, n, 0) == ToRead(s[at..], oct == 0, n - oct, v)
    {
      var ok;
      ok, v, at := NextOctet(s, at, oct == 0, n - oct, v);
      if !ok {
        return None;
      }
    }
    r := if at < |s| then None else Some(v);
  }

  // ---- device addresses ---------------------------------------------------------------------------------------

  /** `cfg_hexval`, or 16 for what is no hex digit. */
  function HexVal(c: char): (v: nat)
    ensures v <= 16
  {
    if '0' <= c <= '9' then c as int - '0' as int
    else if 'A' <= c <= 'F' then 10 + (c as int - 'A' as int)
    else if 'a' <= c <= 'f' then 10 + (c as int - 'a' as int)
    else 16
  }

  predicate AllHex(s: string) { forall i :: 0 <= i < |s| ==> HexVal(s[i]) < 16 }

  function Hex(s: string): nat {
    if s == "" then 0 else Hex(s[..|s| - 1]) * 16 + HexVal(s[|s| - 1])
  }

  /** One to four hex digits. */
  function Cuu(s: string): Option<nat> {
    if 1 <= |s| <= 4 && AllHex(s) then Some(Hex(s)) else None
  }

  lemma {:induction false} HexBound(s: string)
    requires AllHex(s)
    ensures |s| <= 4 ==> Hex(s) < 0x1_0000
    ensures |s| <= 3 ==> Hex(s) < 0x1000
    ensures |s| <= 2 ==> Hex(s) < 0x100
    ensures |s| <= 1 ==> Hex(s) < 0x10
  {
    if s != "" { HexBound(s[..|s| - 1]); }
  }

  lemma CuuRange(s: string)
    ensures Cuu(s).Some? ==> Cuu(s).value <= 0xFFFF
  {
    if Cuu(s).Some? { HexBound(s); }
  }

  /** `cfg_parse_cuu` */
  method ParseCuu(s: string) returns (r: Option<Half>)
    ensures r.None? <==> Cuu(s).None?
    ensures r.Some? ==> Cuu(s) == Some(r.value as nat)
  {
    if s == "" {
      return None;
    }
    var v := 0;
    for i := 0 to |s|
      invariant AllHex(s[..i]) && i <= 4 && v == Hex(s[..i])
    {
      var h := HexVal(s[i]);
      if h == 16 {
        return None;
      }
      assert s[..i + 1][..i] == s[..i];
      v := v * 16 + h;
      if i + 1 > 4 {
        return None;
      }
    }
    assert s[..|s|] == s;
    HexBound(s);
    r := Some(v);
  }

  function HexChr(d: nat): char
    requires d < 16
  {
    if d < 10 then ('0' as int + d) as char else ('A' as int + (d - 10)) as char
  }

  function HexText(n: nat): string {
    if n < 16 then [HexChr(n)] else HexText(n / 16) + [HexChr(n % 16)]
  }

  lemma {:induction false} HexReads(n: nat)
    ensures HexText(n) != "" && AllHex(HexText(n)) && Hex(HexText(n)) == n
    ensures n < 0x10 ==> |HexText(n)| == 1
    ensures n < 0x100 ==> |HexText(n)| <= 2
    ensures n < 0x1000 ==> |HexText(n)| <= 3
    ensures n < 0x1_0000 ==> |HexText(n)| <= 4
  {
    if n < 16 {
      assert HexText(n)[..0] == "";
    } else {
      HexReads(n / 16);
      assert HexText(n)[..|HexText(n)| - 1] == HexText(n / 16);
    }
  }

  lemma CuuPrints(n: Half)
    ensures Cuu(HexText(n)) == Some(n as nat)
  {
    HexReads(n);
  }
}
