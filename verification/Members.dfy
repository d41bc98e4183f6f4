/** The text of a PROFILE member: statements written out line by line, and read back as written. */
module Members {
  import opened Options
  import opened Profile
  import opened Statements

  /** A statement a line can carry. */
  predicate Carried(stmt: seq<string>) {
    |stmt| <= MAX_TOK && |Line(stmt)| <= LINE_MAX && forall i :: 0 <= i < |stmt| ==> Clean(stmt[i])
  }

  function Text(stmts: seq<seq<string>>): string {
    if stmts == [] then "" else Line(stmts[0]) + "\n" + Text(stmts[1..])
  }

  function AsRead(stmts: seq<seq<string>>): (ls: seq<Logical>)
    ensures |ls| == |stmts|
  {
    if stmts == [] then [] else [Some(stmts[0])] + AsRead(stmts[1..])
  }

  lemma {:induction false} LineClean(words: seq<string>, c: char)
    requires (c == ';' || c == '\n') && forall i :: 0 <= i < |words| ==> Clean(words[i])
    ensures forall k :: 0 <= k < |Line(words)| ==> Line(words)[k] != c
  {
    if |words| > 1 {
      LineClean(words[1..], c);
      var more := Line(words[1..]);
      assert Line(words) == words[0] + " " + more;
    }
  }

  /** One line, taken apart as it was put together. */
  lemma LineReads(stmt: seq<string>)
    requires Carried(stmt)
    ensures Read(Line(stmt)) == Some(stmt)
  {
    var line := Line(stmt);
    LineClean(stmt, ';');
    UpToIs(line, ';', |line|);
    assert line[..|line|] == line;
    TokensOfLine(stmt);
  }

  lemma FirstLine(line: string, rest: string)
    requires forall k :: 0 <= k < |line| ==> line[k] != '\n'
    ensures Lines(line + "\n" + rest) == [Read(line)] + Lines(rest)
  {
    var s := line + "\n" + rest;
    UpToIs(s, '\n', |line|);
    assert s[..|line|] == line && s[|line| + 1..] == rest;
  }

  /** A member of statements that lines can carry is read as those statements. */
  lemma {:induction false} TextReads(stmts: seq<seq<string>>)
    requires forall i :: 0 <= i < |stmts| ==> Carried(stmts[i])
    ensures Lines(Text(stmts)) == AsRead(stmts)
  {
    if stmts != [] {
      LineClean(stmts[0], '\n');
      LineReads(stmts[0]);
      FirstLine(Line(stmts[0]), Text(stmts[1..]));
      TextReads(stmts[1..]);
    }
  }

  /** Words of at most 16 characters, a few of them, fit a line. */
  lemma {:induction false} LineFits(words: seq<string>)
    requires forall i :: 0 <= i < |words| ==> |words[i]| <= NAMELEN
    ensures |Line(words)| <= (NAMELEN + 1) * |words|
  {
    if words != [] {
      LineFits(words[1..]);
    }
  }
}
