/** The tokens of a line by position, as the parser walks through it. */
module ShellScan {
  import opened ShellSyntax

  // What the pointer into the line reads.
  function CharAt(line: string, i: nat): char
    requires i <= |line|
  {
    if i < |line| then line[i] else '\0'
  }

  /** The first position from `s` that is not blank. */
  function Skip(line: string, s: nat): (a: nat)
    requires s <= |line|
    ensures s <= a <= |line|
    decreases |line| - s
  {
    if s < |line| && IsSpace(line[s]) then Skip(line, s + 1) else s
  }

  /** The end of the word characters from `a`. */
  function WordEnd(line: string, a: nat): (e: nat)
    requires a <= |line|
    ensures a <= e <= |line|
    decreases |line| - a
  {
    if a < |line| && IsWordChar(line[a]) then WordEnd(line, a + 1) else a
  }

  function TokenEnd(line: string, a: nat): (e: nat)
    requires a < |line| && IsLine(line) && !IsSpace(line[a])
    ensures a < e <= |line|
  {
    if IsSpec(line[a]) then a + 1 else WordEnd(line, a)
  }

  /** The tokens from `s`. */
  function TokensFrom(line: string, s: nat): seq<string>
    requires IsLine(line) && s <= |line|
    decreases |line| - s
  {
    var a := Skip(line, s);
    if a == |line| then []
    else
      SkipStops(line, s);
      var e := TokenEnd(line, a);
      [line[a..e]] + TokensFrom(line, e)
  }

  lemma {:induction false} SkipStops(line: string, s: nat)
    requires s <= |line|
    ensures Skip(line, s) < |line| ==> !IsSpace(line[Skip(line, s)])
    decreases |line| - s
  {
    if s < |line| && IsSpace(line[s]) {
      SkipStops(line, s + 1);
    }
  }

  // ----- the same tokens

  lemma {:induction false} SkipIsBlanks(line: string, s: nat)
    requires s <= |line|
    ensures Skip(line, s) == s + Blanks(line[s..])
    decreases |line| - s
  {
    if s < |line| && IsSpace(line[s]) {
      SkipIsBlanks(line, s + 1);
      assert line[s..][1..] == line[s + 1..];
    }
  }

  lemma {:induction false} WordEndIsLength(line: string, a: nat)
    requires a <= |line|
    ensures WordEnd(line, a) == a + WordLength(line[a..])
    decreases |line| - a
  {
    if a < |line| && IsWordChar(line[a]) {
      WordEndIsLength(line, a + 1);
      assert line[a..][1..] == line[a + 1..];
    }
  }

  lemma TokenAt(line: string, a: nat, e: nat, v: string)
    requires IsLine(line) && a < |line| && !IsSpace(line[a]) && e == TokenEnd(line, a) && v == line[a..]
    ensures e - a == TokenLength(v) && v[..e - a] == line[a..e] && v[e - a..] == line[e..]
  {
    WordEndIsLength(line, a);
  }

  lemma FirstBehind(u: string, v: string)
    requires IsLine(u) && !Ended(u) && v == u[Blanks(u)..]
    ensures IsLine(v) && v != [] && !IsSpace(v[0])
    ensures First(u) == v[..TokenLength(v)] && Behind(u) == v[TokenLength(v)..]
  {
    BlanksAreBlank(u);
  }

  lemma FirstFrom(line: string, s: nat, a: nat, e: nat, u: string)
    requires IsLine(line) && s <= |line| && a == Skip(line, s) < |line| && !IsSpace(line[a]) && e == TokenEnd(line, a)
    requires u == line[s..]
    ensures !Ended(u) && First(u) == line[a..e] && Behind(u) == line[e..]
  {
    var v := line[a..];
    SkipIsBlanks(line, s);
    TokenAt(line, a, e, v);
    assert u[a - s..] == v;
    FirstBehind(u, v);
  }

  lemma {:induction false} SameTokens(line: string, s: nat)
    requires IsLine(line) && s <= |line|
    ensures TokensFrom(line, s) == Tokens(line[s..])
    decreases |line| - s
  {
    var a := Skip(line, s);
    SkipIsBlanks(line, s);
    if a < |line| {
      SkipStops(line, s);
      var e := TokenEnd(line, a);
      FirstFrom(line, s, a, e, line[s..]);
      SameTokens(line, e);
    }
  }

  // ----- what is left

  /** From `s` on the line has the tokens `ts`. */
  ghost predicate Left(line: string, s: nat, ts: seq<string>) {
    IsLine(line) && s <= |line| && forall i {:trigger TokensFrom(line, i)} :: i == s ==> TokensFrom(line, i) == ts
  }

  lemma WholeLineLeft(line: string)
    requires IsLine(line)
    ensures Left(line, 0, Tokens(line))
  {
    SameTokens(line, 0);
    assert line[0..] == line;
  }

  lemma LeftAreTokens(line: string, s: nat, ts: seq<string>)
    requires Left(line, s, ts)
    ensures AllTokens(ts)
  {
    SameTokens(line, s);
    assert TokensFrom(line, s) == ts;
    TokensAreTokens(line[s..]);
  }

  // The token behind the blanks, and what is left behind it.
  lemma TokenAhead(line: string, s: nat, a: nat, ts: seq<string>)
    requires Left(line, s, ts) && a == Skip(line, s)
    ensures ts == [] <==> a == |line|
    ensures ts != [] ==>
      && IsToken(ts[0]) && !IsSpace(line[a]) && ts[0] == line[a..TokenEnd(line, a)]
      && Left(line, TokenEnd(line, a), ts[1..])
  {
    SkipStops(line, s);
    LeftAreTokens(line, s, ts);
    assert TokensFrom(line, s) == ts;
  }
}
