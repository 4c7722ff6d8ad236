/** What the shell's parser makes of a line: its tokens, and the command that they stand for. */
module ShellSyntax {

  datatype Option<T> = None | Some(value: T)

  // ----- characters, in the C locale

  predicate IsSpace(c: char) {
    c == ' ' || '\t' <= c <= '\r'
  }

  predicate IsSpec(c: char) {
    c == '|' || c == '&' || c == '<' || c == '>'
  }

  predicate IsAlnum(c: char) {
    'a' <= c <= 'z' || 'A' <= c <= 'Z' || '0' <= c <= '9'
  }

  predicate IsIdChar(c: char) {
    IsAlnum(c) || c in "_-.,/~+"
  }

  predicate IsWordChar(c: char) {
    !IsSpace(c) && !IsSpec(c) && c != '\0'
  }

  predicate IsIdentifier(s: string) {
    forall i :: 0 <= i < |s| ==> IsIdChar(s[i])
  }

  /** The characters of a C string in front of its zero. */
  predicate IsLine(s: string) {
    forall i :: 0 <= i < |s| ==> s[i] != '\0'
  }

  // ----- tokens

  predicate IsSign(t: string) {
    |t| == 1 && IsSpec(t[0])
  }

  predicate IsWord(t: string) {
    t != [] && forall i :: 0 <= i < |t| ==> IsWordChar(t[i])
  }

  predicate IsToken(t: string) {
    IsSign(t) || IsWord(t)
  }

  predicate AllTokens(ts: seq<string>) {
    forall i :: 0 <= i < |ts| ==> IsToken(ts[i])
  }

  predicate AllWords(ts: seq<string>) {
    forall i :: 0 <= i < |ts| ==> IsWord(ts[i])
  }

  function Blanks(s: string): (n: nat)
    ensures n <= |s|
  {
    if s != [] && IsSpace(s[0]) then 1 + Blanks(s[1..]) else 0
  }

  function WordLength(s: string): (n: nat)
    ensures n <= |s|
  {
    if s != [] && IsWordChar(s[0]) then 1 + WordLength(s[1..]) else 0
  }

  // The length of the token that a string begins with.
  function TokenLength(s: string): (n: nat)
    requires s != [] && IsLine(s) && !IsSpace(s[0])
    ensures 0 < n <= |s|
  {
    if IsSpec(s[0]) then 1 else WordLength(s)
  }

  lemma {:induction false} WordsAreWords(s: string)
    ensures forall i :: 0 <= i < WordLength(s) ==> IsWordChar(s[i])
    ensures WordLength(s) < |s| ==> !IsWordChar(s[WordLength(s)])
  {
    if s != [] && IsWordChar(s[0]) {
      WordsAreWords(s[1..]);
      forall i | 0 <= i < WordLength(s) ensures IsWordChar(s[i]) {
        if i > 0 {
          assert s[i] == s[1..][i - 1];
        }
      }
    }
  }

  lemma {:induction false} BlanksAreBlank(s: string)
    ensures forall i :: 0 <= i < Blanks(s) ==> IsSpace(s[i])
    ensures Blanks(s) < |s| ==> !IsSpace(s[Blanks(s)])
  {
    if s != [] && IsSpace(s[0]) {
      BlanksAreBlank(s[1..]);
      forall i | 0 <= i < Blanks(s) ensures IsSpace(s[i]) {
        if i > 0 {
          assert s[i] == s[1..][i - 1];
        }
      }
    }
  }

  predicate Ended(s: string) {
    Blanks(s) == |s|
  }

  /** The first token of a line, and what follows it. */
  function First(s: string): (t: string)
    requires IsLine(s) && !Ended(s)
  {
    BlanksAreBlank(s);
    var u := s[Blanks(s)..];
    u[..TokenLength(u)]
  }

  function Behind(s: string): (r: string)
    requires IsLine(s) && !Ended(s)
    ensures |r| < |s| && IsLine(r)
  {
    BlanksAreBlank(s);
    var u := s[Blanks(s)..];
    u[TokenLength(u)..]
  }

  /** The tokens of a line. */
  function Tokens(s: string): seq<string>
    requires IsLine(s)
    decreases |s|
  {
    if Ended(s) then [] else [First(s)] + Tokens(Behind(s))
  }

  lemma FirstIsToken(s: string)
    requires IsLine(s) && !Ended(s)
    ensures IsToken(First(s)) && |First(s)| + |Behind(s)| <= |s|
  {
    BlanksAreBlank(s);
    WordsAreWords(s[Blanks(s)..]);
  }

  lemma {:induction false} TokensAreTokens(s: string)
    requires IsLine(s)
    ensures AllTokens(Tokens(s))
    decreases |s|
  {
    if !Ended(s) {
      FirstIsToken(s);
      TokensAreTokens(Behind(s));
    }
  }

  // ----- the parser

  /** A command; the programs are listed last to first. */
  datatype Cmd = Cmd(pgms: seq<seq<string>>, stdin: Option<string>, stdout: Option<string>, background: bool)

  const EMPTY := Cmd([], None, None, false)

  /** Dangling: the line ends behind a redirection sign. */
  datatype Outcome = Accepted(cmd: Cmd) | Rejected | Dangling(before: Cmd, sign: char)

  /** The number of words in front of the first sign. */
  function WordCount(ts: seq<string>): (n: nat)
    ensures n <= |ts|
  {
    if ts != [] && !IsSign(ts[0]) then 1 + WordCount(ts[1..]) else 0
  }

  lemma {:induction false} WordsInFront(cmd: seq<string>, rest: seq<string>)
    requires AllWords(cmd) && (rest == [] || IsSign(rest[0]))
    ensures WordCount(cmd + rest) == |cmd|
  {
    if cmd != [] {
      assert (cmd + rest)[1..] == cmd[1..] + rest;
      WordsInFront(cmd[1..], rest);
    } else {
      assert cmd + rest == rest;
    }
  }

  // From the label newcmd.
  function ParseCmd(ts: seq<string>, c: Cmd): Outcome
    decreases |ts|, 1
  {
    var n := WordCount(ts);
    if n == 0 then Rejected else ParseRest(ts[n..], c.(pgms := [ts[..n]] + c.pgms))
  }

  // From the label newtoken.
  function ParseRest(ts: seq<string>, c: Cmd): Outcome
    decreases |ts|, 0
  {
    if ts == [] then Accepted(c)
    else if ts[0] == "|" then ParseCmd(ts[1..], c)
    else if ts[0] == "&" then if |ts| == 1 then Accepted(c.(background := true)) else Rejected
    else if ts[0] == "<" then
      if c.stdin.Some? then Rejected
      else if |ts| == 1 then Dangling(c, '<')
      else if IsIdentifier(ts[1]) then ParseRest(ts[2..], c.(stdin := Some(ts[1])))
      else Rejected
    else if ts[0] == ">" then
      if c.stdout.Some? then Rejected
      else if |ts| == 1 then Dangling(c, '>')
      else if IsIdentifier(ts[1]) then ParseRest(ts[2..], c.(stdout := Some(ts[1])))
      else Rejected
    else Rejected
  }

  function ParseLine(s: string): Outcome
    requires IsLine(s)
  {
    ParseCmd(Tokens(s), EMPTY)
  }
}
