/** What the tokens of a line are, without the scanner: the line is blanks and tokens by turns, and a word
    goes on as far as it can. */
module ShellLexing {
  import opened ShellSyntax
  import opened ShellGrammar

  // isspace in the C locale, and isspec.
  predicate BlankChar(c: char) {
    c == ' ' || c == '\t' || c == '\n' || c == '\U{000B}' || c == '\U{000C}' || c == '\r'
  }

  predicate Special(c: char) {
    c == '|' || c == '&' || c == '<' || c == '>'
  }

  predicate AllBlank(s: string) {
    forall i :: 0 <= i < |s| ==> BlankChar(s[i])
  }

  predicate IsSpecial(t: string) {
    |t| == 1 && Special(t[0])
  }

  // A character of a word, if it does not end the line.
  predicate Plain(c: char) {
    !BlankChar(c) && !Special(c) && c != '\0'
  }

  /** A special character alone, or characters none of which is special or blank. */
  predicate Spells(t: string) {
    IsSpecial(t) || (t != [] && forall i :: 0 <= i < |t| ==> Plain(t[i]))
  }

  // The token `t` stands first, and no longer word does.
  predicate Stands(u: string, t: string) {
    Spells(t) && |t| <= |u| && u[..|t|] == t && (IsSpecial(t) || |t| == |u| || !Plain(u[|t|]))
  }

  // Behind `gap` blanks.
  predicate StandsBehind(s: string, gap: nat, t: string) {
    gap <= |s| && AllBlank(s[..gap]) && Stands(s[gap..], t)
  }

  ghost predicate MadeOf(s: string, ts: seq<string>)
    decreases |ts|
  {
    if ts == [] then AllBlank(s)
    else exists gap: nat :: StandsBehind(s, gap, ts[0]) && MadeOf(s[gap..][|ts[0]|..], ts[1..])
  }

  /** isspace, isspec and isidentifier's letters, digits and IDCHARS, by the characters themselves. */
  lemma CharacterClasses(c: char)
    ensures IsSpace(c) <==> BlankChar(c)
    ensures IsSpec(c) <==> Special(c)
    ensures IsWordChar(c) <==> Plain(c)
    ensures IsIdChar(c) <==> 'a' <= c <= 'z' || 'A' <= c <= 'Z' || '0' <= c <= '9' || c in "_-.,/~+"
  {
  }

  lemma TokenSpells(t: string)
    ensures Spells(t) <==> IsToken(t)
    ensures IsSpecial(t) <==> IsSign(t)
  {
    forall i | 0 <= i < |t| ensures IsWordChar(t[i]) <==> Plain(t[i]) {
      CharacterClasses(t[i]);
    }
    if t != [] {
      CharacterClasses(t[0]);
    }
  }

  lemma BlankMeans(s: string)
    ensures AllBlank(s) <==> forall i :: 0 <= i < |s| ==> IsSpace(s[i])
  {
    forall i | 0 <= i < |s| ensures IsSpace(s[i]) <==> BlankChar(s[i]) {
      CharacterClasses(s[i]);
    }
  }

  lemma {:induction false} BlanksAre(s: string, gap: nat)
    requires gap <= |s| && (forall i :: 0 <= i < gap ==> IsSpace(s[i])) && (gap < |s| ==> !IsSpace(s[gap]))
    ensures Blanks(s) == gap
  {
    if gap > 0 {
      BlanksAre(s[1..], gap - 1);
    }
  }

  lemma {:induction false} WordLengthIs(s: string, n: nat)
    requires n <= |s| && (forall i :: 0 <= i < n ==> IsWordChar(s[i])) && (n < |s| ==> !IsWordChar(s[n]))
    ensures WordLength(s) == n
  {
    if n > 0 {
      WordLengthIs(s[1..], n - 1);
    }
  }

  lemma LengthIs(u: string, t: string)
    requires IsLine(u) && Stands(u, t)
    ensures u != [] && !IsSpace(u[0]) && TokenLength(u) == |t|
  {
    TokenSpells(t);
    assert u[0] == t[0];
    if !IsSign(t) {
      forall i | 0 <= i < |t| ensures IsWordChar(u[i]) {
        assert u[i] == t[i];
      }
      if |t| < |u| {
        CharacterClasses(u[|t|]);
      }
      WordLengthIs(u, |t|);
    }
  }

  // The scanner finds the token that stands first.
  lemma FirstStands(s: string, gap: nat, t: string)
    requires IsLine(s) && StandsBehind(s, gap, t)
    ensures !Ended(s) && Blanks(s) == gap && First(s) == t && Behind(s) == s[gap..][|t|..]
  {
    LengthIs(s[gap..], t);
    BlankMeans(s[..gap]);
    forall i | 0 <= i < gap ensures IsSpace(s[i]) {
      assert s[..gap][i] == s[i];
    }
    BlanksAre(s, gap);
  }

  lemma ScannedToken(u: string)
    requires IsLine(u) && u != [] && !IsSpace(u[0])
    ensures Stands(u, u[..TokenLength(u)])
  {
    var t := u[..TokenLength(u)];
    WordsAreWords(u);
    TokenSpells(t);
    if |t| < |u| {
      CharacterClasses(u[|t|]);
    }
  }

  lemma ScannedStands(s: string)
    requires IsLine(s) && !Ended(s)
    ensures StandsBehind(s, Blanks(s), First(s)) && Behind(s) == s[Blanks(s)..][|First(s)|..]
  {
    BlanksAreBlank(s);
    BlankMeans(s[..Blanks(s)]);
    ScannedToken(s[Blanks(s)..]);
  }

  // Of all first tokens only the scanned one stands.
  lemma OnlyTheFirst(s: string, ts: seq<string>)
    requires IsLine(s) && ts != [] && MadeOf(s, ts)
    ensures !Ended(s) && ts[0] == First(s) && MadeOf(Behind(s), ts[1..])
  {
    var gap: nat :| StandsBehind(s, gap, ts[0]) && MadeOf(s[gap..][|ts[0]|..], ts[1..]);
    FirstStands(s, gap, ts[0]);
  }

  lemma FirstAndRest(s: string, ts: seq<string>)
    requires IsLine(s) && !Ended(s) && ts != [] && ts[0] == First(s) && MadeOf(Behind(s), ts[1..])
    ensures MadeOf(s, ts)
  {
    ScannedStands(s);
    assert StandsBehind(s, Blanks(s), ts[0]) && MadeOf(s[Blanks(s)..][|ts[0]|..], ts[1..]);
  }

  lemma FirstToken(s: string, ts: seq<string>)
    requires IsLine(s) && ts != []
    ensures Tokens(s) == ts <==> !Ended(s) && First(s) == ts[0] && Tokens(Behind(s)) == ts[1..]
  {
    if !Ended(s) {
      assert ts == [ts[0]] + ts[1..];
    }
  }

  lemma NotAllBlank(s: string)
    requires IsLine(s)
    ensures AllBlank(s) <==> Ended(s)
  {
    BlankMeans(s);
    BlanksAreBlank(s);
  }

  /** The tokens of a line are the one sequence of tokens that it is made of. */
  lemma {:induction false} TokensExactly(s: string, ts: seq<string>)
    requires IsLine(s)
    ensures Tokens(s) == ts <==> MadeOf(s, ts)
    decreases |ts|
  {
    if ts == [] {
      NotAllBlank(s);
    } else {
      FirstToken(s, ts);
      if !Ended(s) {
        TokensExactly(Behind(s), ts[1..]);
      }
      if MadeOf(s, ts) {
        OnlyTheFirst(s, ts);
      } else if Tokens(s) == ts {
        FirstAndRest(s, ts);
      }
    }
  }

  /** A line is accepted exactly when it is made of the tokens of a sentence, and the command is its meaning. */
  lemma LineAcceptedExactly(line: string, d: Cmd)
    requires IsLine(line)
    ensures ParseLine(line) == Accepted(d)
       <==> exists s :: WellFormed(s) && MadeOf(line, Yield(s)) && Meaning(s) == d
  {
    AcceptedExactly(line, d);
    forall s ensures MadeOf(line, Yield(s)) <==> Yield(s) == Tokens(line) {
      TokensExactly(line, Yield(s));
    }
  }
}
