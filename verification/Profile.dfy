/** The text layer of the PROFILE reader (src/nsfcfg.c): tokens, keywords, and names that are stored cut to
    their field. One character set is fixed; the text holds no NUL. */
module Profile {
  import opened Options

  const NAMELEN: nat := 16
  const SHORTLEN: nat := 8       // job, pool and component names

  // ---- names ------------------------------------------------------------------------------------------------

  function Upper(c: char): char {
    if 'a' <= c <= 'z' then (c as int - 'a' as int + 'A' as int) as char else c
  }

  function Up(s: string): (u: string)
    ensures |u| == |s|
  {
    seq(|s|, i requires 0 <= i < |s| => Upper(s[i]))
  }

  predicate Plain(s: string) { forall i :: 0 <= i < |s| ==> s[i] != '\0' }

  /** A NUL-terminated string read at `i`. */
  function At(s: string, i: nat): char { if i < |s| then s[i] else '\0' }

  /** `cfg_kweq`: both end together, alike but for case. */
  method KwEq(tok: string, kw: string) returns (eq: bool)
    requires Plain(tok) && Plain(kw)
    ensures eq == (Up(tok) == Up(kw))
  {
    var i := 0;
    while At(tok, i) != '\0' && At(kw, i) != '\0'
      invariant i <= |tok| && i <= |kw| && forall j :: 0 <= j < i ==> Up(tok)[j] == Up(kw)[j]
      decreases |tok| - i
    {
      if Upper(At(tok, i)) != Upper(At(kw, i)) {
        assert Up(tok)[i] != Up(kw)[i];
        return false;
      }
      i := i + 1;
    }
    eq := At(tok, i) == '\0' && At(kw, i) == '\0';
  }

  /** What a field of `width` characters keeps of a name. */
  function Field(tok: string, width: nat): string { if |tok| < width then tok else tok[..width] }

  /** `cfg_nameq`: the whole token against the stored name. */
  method NameEq(field: string, width: nat, tok: string) returns (eq: bool)
    requires Plain(field) && Plain(tok) && |field| <= width
    ensures eq == (Up(field) == Up(tok))
  {
    var i := 0;
    while i < width
      invariant i <= width && i <= |field| && i <= |tok| && forall j :: 0 <= j < i ==> Up(field)[j] == Up(tok)[j]
    {
      if Upper(At(field, i)) != Upper(At(tok, i)) {
        assert i < |field| && i < |tok| ==> Up(field)[i] != Up(tok)[i];
        return false;
      }
      if At(field, i) == '\0' {
        return true;
      }
      assert Upper(At(field, i)) != '\0';
      i := i + 1;
    }
    eq := At(tok, width) == '\0';
  }

  // ---- tokens -------------------------------------------------------------------------------------------------

  predicate Blank(c: char) { c == ' ' || c == '\t' || c == '\r' }

  predicate Word(s: string) { s != "" && forall i :: 0 <= i < |s| ==> !Blank(s[i]) }

  /** A word that a line of a member can carry: nothing in it ends the line or starts a comment. */
  predicate Clean(s: string) { Word(s) && forall i :: 0 <= i < |s| ==> s[i] != ';' && s[i] != '\n' && s[i] != '\0' }

  /** How many characters from the front are (not) blank. */
  function Span(s: string, blank: bool): (n: nat)
    ensures n <= |s| && (forall i :: 0 <= i < n ==> Blank(s[i]) == blank) && (n < |s| ==> Blank(s[n]) != blank)
  {
    if s == "" || Blank(s[0]) != blank then 0 else 1 + Span(s[1..], blank)
  }

  function Tokens(s: string): seq<string>
    decreases |s|
  {
    var t := s[Span(s, true)..];
    if t == "" then [] else [t[..Span(t, false)]] + Tokens(t[Span(t, false)..])
  }

  function Line(words: seq<string>): string {
    if words == [] then "" else words[0] + (if |words| == 1 then "" else " " + Line(words[1..]))
  }

  lemma {:induction false} SpanOf(s: string, head: string, blank: bool)
    requires head <= s && (forall i :: 0 <= i < |head| ==> Blank(head[i]) == blank) && (|head| < |s| ==> Blank(s[|head|]) != blank)
    ensures Span(s, blank) == |head|
  {
    if head != "" {
      assert s[0] == head[0] && head[1..] <= s[1..];
      SpanOf(s[1..], head[1..], blank);
    }
  }

  lemma SpanBehind(t: string, blank: string)
    requires (forall i :: 0 <= i < |blank| ==> Blank(blank[i])) && (t != "" ==> !Blank(t[0]))
    ensures Tokens(blank + t) == Tokens(t)
  {
    SpanOf(blank + t, blank, true);
    assert (blank + t)[|blank|..] == t;
    SpanOf(t, "", true);
    assert t[0..] == t;
  }

  lemma FirstToken(word: string, rest: string)
    requires Word(word) && (rest != "" ==> Blank(rest[0]))
    ensures Tokens(word + rest) == [word] + Tokens(rest)
  {
    var s := word + rest;
    SpanOf(s, "", true);
    assert s[0..] == s;
    SpanOf(s, word, false);
    assert s[..|word|] == word && s[|word|..] == rest;
  }

  /** Tokenizing the words of a line with single blanks between yields the words. */
  lemma {:induction false} TokensOfLine(words: seq<string>)
    requires forall i :: 0 <= i < |words| ==> Word(words[i])
    ensures Tokens(Line(words)) == words
  {
    if words != [] {
      if |words| == 1 {
        FirstToken(words[0], "");
        assert words[0] + "" == Line(words) && Tokens("") == [];
      } else {
        TokensOfLine(words[1..]);
        var more := Line(words[1..]);
        assert !Blank(more[0]) by { assert more[0] == words[1..][0][0]; }
        FirstToken(words[0], " " + more);
        SpanBehind(more, " ");
      }
    }
  }

  lemma TokensFirst(s: string, t: string, run: nat)
    requires t == s[Span(s, true)..] && t != "" && run == Span(t, false)
    ensures Tokens(s) == [t[..run]] + Tokens(t[run..])
  {
  }

  lemma TokensNone(s: string)
    requires Span(s, true) == |s|
    ensures Tokens(s) == []
  {
  }

  lemma Slices(s: string, p: nat, q: nat)
    requires p <= q <= |s|
    ensures s[p..][q - p..] == s[q..] && s[p..][..q - p] == s[p..q]
  {
  }

  lemma TokensHere(line: string, p: nat, from: nat, q: nat)
    requires p <= from < |line| && from == p + Span(line[p..], true) && q == from + Span(line[from..], false)
    ensures from < q <= |line| && Tokens(line[p..]) == [line[from..q]] + Tokens(line[q..])
  {
    var s, t := line[p..], line[from..];
    assert s[from - p] == line[from] == t[0];
    Slices(line, p, from);
    TokensFirst(s, t, q - from);
    Slices(line, from, q);
  }

  /** The next token from `p` on, and where the rest begins. */
  method NextToken(line: string, p: nat) returns (tok: Option<string>, q: nat)
    requires p <= |line|
    ensures p <= q <= |line| && (tok.Some? ==> p < q)
    ensures Tokens(line[p..]) == if tok.Some? then [tok.value] + Tokens(line[q..]) else []
  {
    var from := SkipWhile(line, p, true);
    if from == |line| {
      TokensNone(line[p..]);
      return None, p;
    }
    q := SkipWhile(line, from, false);
    TokensHere(line, p, from, q);
    tok := Some(line[from..q]);
  }

  lemma OneOn(all: seq<string>, front: seq<string>, x: string, rest: seq<string>)
    requires all == front + ([x] + rest)
    ensures all == (front + [x]) + rest && |all| > |front|
  {
  }

  /** `cfg_tokenize`: refuses a line of more than `max` tokens. */
  method Tokenize(line: string, max: nat) returns (r: Option<seq<string>>)
    ensures r == if |Tokens(line)| <= max then Some(Tokens(line)) else None
  {
    var toks: seq<string>, p := [], 0;
    assert line[0..] == line;
    ghost var all := Tokens(line);
    ghost var rest := all;
    while true
      invariant p <= |line| && |toks| <= max && all == toks + rest && rest == Tokens(line[p..])
      decreases |line| - p
    {
      var tok, q := NextToken(line, p);
      if tok.None? {
        assert rest == [] && all == toks;
        return Some(toks);
      }
      rest := Tokens(line[q..]);
      OneOn(all, toks, tok.value, rest);
      if |toks| >= max {
        return None;
      }
      toks, p := toks + [tok.value], q;
    }
  }

  method SkipWhile(s: string, from: nat, blank: bool) returns (p: nat)
    requires from <= |s|
    ensures p == from + Span(s[from..], blank) <= |s|
  {
    p := from;
    while p < |s| && Blank(s[p]) == blank
      invariant from <= p <= |s| && forall i :: from <= i < p ==> Blank(s[i]) == blank
    {
      p := p + 1;
    }
    SpanOf(s[from..], s[from..p], blank);
  }
}
