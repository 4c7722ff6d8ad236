/** How much of the parser's three fixed pools a line takes. */
module ShellPools {
  import opened ShellSyntax
  import opened ShellMemory

  // cbuf, pbuf and cmdbuf
  const CBUF_SIZE := 256
  const PBUF_SIZE := 50
  const CMDBUF_SIZE := 20

  /** What is written to cbuf, and the pointers of pbuf and cells of cmdbuf that are taken. */
  datatype Use = Use(text: string, ptrs: nat, cells: nat) {
    function Plus(u: Use): Use {
      Use(text + u.text, ptrs + u.ptrs, cells + u.cells)
    }

    predicate Fits() {
      |text| <= CBUF_SIZE && ptrs <= PBUF_SIZE && cells <= CMDBUF_SIZE
    }
  }

  /** What a token takes of cbuf each time it is read. */
  function TokenText(ts: seq<string>): string {
    if ts == [] then "" else ts[0] + ['\0']
  }

  function WordText(ts: seq<string>, n: nat): string
    requires n <= |ts|
  {
    if n == 0 then "" else ts[0] + ['\0'] + WordText(ts[1..], n - 1)
  }

  // acmd: the words, and the token behind them, which is read again afterwards.
  function UseWords(ts: seq<string>): Use {
    var n := WordCount(ts);
    Use(WordText(ts, n) + TokenText(ts[n..]), n + 1, 1)
  }

  lemma CountOneWord(ts: seq<string>, us: seq<string>)
    requires ts != [] && !IsSign(ts[0]) && us == ts[1..]
    ensures WordCount(ts) == 1 + WordCount(us) && ts[WordCount(ts)..] == us[WordCount(us)..]
    ensures ts[..WordCount(ts)] == [ts[0]] + us[..WordCount(us)]
  {
  }

  lemma UseOneWord(ts: seq<string>, us: seq<string>)
    requires ts != [] && !IsSign(ts[0]) && us == ts[1..]
    ensures UseWords(ts).text == ts[0] + ['\0'] + UseWords(us).text
    ensures UseWords(ts).ptrs == UseWords(us).ptrs + 1
  {
    CountOneWord(ts, us);
    Regroup(ts[0] + ['\0'], WordText(us, WordCount(us)), TokenText(us[WordCount(us)..]));
  }

  lemma Regroup(a: string, b: string, c: string)
    ensures a + b + c == a + (b + c)
  {
  }

  /** `ws` are the words read so far, with `chars` written in place of `chars0`, and `us` the tokens that are
      left; in all they are those of `ts`. */
  predicate Reading(ws: seq<string>, us: seq<string>, chars0: string, chars: string, ptrs: int, ts: seq<string>) {
    && ws + us[..WordCount(us)] == ts[..WordCount(ts)] && us[WordCount(us)..] == ts[WordCount(ts)..]
    && chars + UseWords(us).text == chars0 + UseWords(ts).text && ptrs + UseWords(us).ptrs == UseWords(ts).ptrs
  }

  lemma ReadingBegins(ts: seq<string>, chars: string)
    ensures Reading([], ts, chars, chars, 0, ts)
  {
  }

  lemma ReadingGoesOn(ws: seq<string>, us: seq<string>, chars0: string, chars: string, chars': string,
                      ptrs: int, ts: seq<string>)
    requires Reading(ws, us, chars0, chars, ptrs, ts) && us != [] && !IsSign(us[0])
    requires chars' == chars + (us[0] + ['\0'])
    ensures Reading(ws + [us[0]], us[1..], chars0, chars', ptrs + 1, ts)
  {
    var vs := us[1..];
    CountOneWord(us, vs);
    UseOneWord(us, vs);
    Regroup(chars, us[0] + ['\0'], UseWords(vs).text);
    assert ws + ([us[0]] + vs[..WordCount(vs)]) == ws + [us[0]] + vs[..WordCount(vs)];
  }

  lemma ReadingEnds(ws: seq<string>, us: seq<string>, chars0: string, chars: string, ptrs: int, ts: seq<string>)
    requires Reading(ws, us, chars0, chars, ptrs, ts) && (us == [] || IsSign(us[0]))
    ensures ws == ts[..WordCount(ts)] && us == ts[WordCount(ts)..]
    ensures chars + UseWords(us).text == chars0 + UseWords(ts).text && ptrs + 1 == UseWords(ts).ptrs
  {
    assert us[..0] == [] && us[0..] == us;
  }

  // From the label newcmd.
  function UseCmd(ts: seq<string>, c: Cmd): Use
    decreases |ts|, 1
  {
    var n := WordCount(ts);
    if n == 0 then UseWords(ts) else UseWords(ts).Plus(UseRest(ts[n..], c.(pgms := [ts[..n]] + c.pgms)))
  }

  function Chars(text: string): Use {
    Use(text, 0, 0)
  }

  lemma PlusAssociates(u: Use, v: Use, w: Use)
    ensures u.Plus(v).Plus(w) == u.Plus(v.Plus(w))
  {
    Regroup(u.text, v.text, w.text);
  }

  // From the label newtoken.
  function UseRest(ts: seq<string>, c: Cmd): Use
    decreases |ts|, 0
  {
    var first := Chars(TokenText(ts));
    if ts == [] then first
    else if ts[0] == "|" then first.Plus(UseCmd(ts[1..], c))
    else if ts[0] == "&" then first.Plus(Chars(TokenText(ts[1..])))
    else if ts[0] == "<" && c.stdin.None? then first.Plus(UseFile(ts[1..], true, c))
    else if ts[0] == ">" && c.stdout.None? then first.Plus(UseFile(ts[1..], false, c))
    else first
  }

  // Behind a redirection sign.
  function UseFile(ts: seq<string>, stdin: bool, c: Cmd): Use
    decreases |ts|, 1
  {
    var file := Chars(TokenText(ts));
    if ts == [] || !IsIdentifier(ts[0]) then file
    else file.Plus(UseRest(ts[1..], WithFile(ts[0], stdin, c)))
  }

  function WithFile(file: string, stdin: bool, c: Cmd): Cmd {
    if stdin then c.(stdin := Some(file)) else c.(stdout := Some(file))
  }

  function UseLine(line: string): Use
    requires IsLine(line)
  {
    UseCmd(Tokens(line), EMPTY)
  }

  /** What a line leaves in cbuf, over what was there before. */
  function LeftInCbuf(line: string, before: string): (after: string)
    requires IsLine(line) && |UseLine(line).text| <= |before|
    ensures |after| == |before|
  {
    var text := UseLine(line).text;
    text + before[|text|..]
  }

  /** What parse returns on a line: behind a redirection sign at its end, cbuf decides. */
  function Verdict(line: string, before: string): int
    requires IsLine(line) && |UseLine(line).text| <= |before|
  {
    match ParseLine(line)
    case Accepted(_) => 1
    case Rejected => -1
    case Dangling(_, _) => if IsIdentifier(CString(before, |UseLine(line).text|)) then 1 else -1
  }

  /** A line that parse can be given without reading or writing outside its pools. */
  predicate Parsable(line: string) {
    IsLine(line) && UseLine(line).Fits() && (ParseLine(line).Dangling? ==> |UseLine(line).text| < CBUF_SIZE)
  }

  /** What parse has to do: the rest of the tokens, for an outcome and a use in all. */
  datatype Goal = Goal(outcome: Outcome, use: Use, before: string)

  predicate Sound(g: Goal) {
    g.use.Fits() && |g.before| == CBUF_SIZE && (g.outcome.Dangling? ==> |g.use.text| < CBUF_SIZE)
  }

  predicate AtCmd(g: Goal, used: Use, ts: seq<string>, cur: Cmd) {
    Sound(g) && !cur.background && g.outcome == ParseCmd(ts, cur) && g.use == used.Plus(UseCmd(ts, cur))
  }

  predicate AtToken(g: Goal, used: Use, ts: seq<string>, cur: Cmd) {
    Sound(g) && !cur.background && g.outcome == ParseRest(ts, cur) && g.use == used.Plus(UseRest(ts, cur))
  }

  lemma LineBegins(g: Goal, used: Use, line: string)
    requires Sound(g) && IsLine(line) && g.outcome == ParseLine(line) && g.use == UseLine(line)
    requires used.text == "" && used.ptrs == 0 && used.cells == 0
    ensures AtCmd(g, used, Tokens(line), EMPTY)
  {
    assert used.Plus(g.use) == g.use;
  }

  lemma CmdBegins(g: Goal, used: Use, ts: seq<string>, cur: Cmd)
    requires AtCmd(g, used, ts, cur)
    ensures |used.text| + |UseWords(ts).text| <= CBUF_SIZE && used.ptrs + UseWords(ts).ptrs <= PBUF_SIZE
    ensures used.cells < CMDBUF_SIZE
    ensures WordCount(ts) == 0 ==> g.outcome == Rejected && g.use == used.Plus(UseWords(ts))
    ensures WordCount(ts) > 0 ==> AtToken(g, used.Plus(UseWords(ts)), ts[WordCount(ts)..],
                                          cur.(pgms := [ts[..WordCount(ts)]] + cur.pgms))
  {
    var rest, d := ts[WordCount(ts)..], cur.(pgms := [ts[..WordCount(ts)]] + cur.pgms);
    PlusAssociates(used, UseWords(ts), UseRest(rest, d));
  }

  function SideOf(stdin: bool, c: Cmd): Option<string> {
    if stdin then c.stdin else c.stdout
  }

  // Behind a redirection sign; the side is not redirected yet.
  predicate AtFile(g: Goal, used: Use, ts: seq<string>, stdin: bool, cur: Cmd) {
    && Sound(g) && !cur.background && SideOf(stdin, cur) == None && g.use == used.Plus(UseFile(ts, stdin, cur))
    && g.outcome ==
       if ts == [] then Dangling(cur, if stdin then '<' else '>')
       else if IsIdentifier(ts[0]) then ParseRest(ts[1..], WithFile(ts[0], stdin, cur))
       else Rejected
  }

  lemma PipeNext(g: Goal, used: Use, ts: seq<string>, cur: Cmd)
    requires AtToken(g, used, ts, cur) && ts != [] && ts[0] == "|"
    ensures AtCmd(g, used.Plus(Chars(TokenText(ts))), ts[1..], cur)
  {
    PlusAssociates(used, Chars(TokenText(ts)), UseCmd(ts[1..], cur));
  }

  lemma BackgroundNext(g: Goal, used: Use, ts: seq<string>, cur: Cmd)
    requires AtToken(g, used, ts, cur) && ts != [] && ts[0] == "&"
    ensures g.use == used.Plus(Chars(TokenText(ts))).Plus(Chars(TokenText(ts[1..])))
    ensures g.outcome == if ts[1..] == [] then Accepted(cur.(background := true)) else Rejected
  {
    PlusAssociates(used, Chars(TokenText(ts)), Chars(TokenText(ts[1..])));
  }

  lemma RedirectionNext(g: Goal, used: Use, ts: seq<string>, stdin: bool, cur: Cmd)
    requires AtToken(g, used, ts, cur) && ts != [] && ts[0] == if stdin then "<" else ">"
    ensures SideOf(stdin, cur) == None ==> AtFile(g, used.Plus(Chars(TokenText(ts))), ts[1..], stdin, cur)
    ensures SideOf(stdin, cur) != None ==> g.outcome == Rejected && g.use == used.Plus(Chars(TokenText(ts)))
  {
    PlusAssociates(used, Chars(TokenText(ts)), UseFile(ts[1..], stdin, cur));
  }

  lemma FileNext(g: Goal, used: Use, ts: seq<string>, stdin: bool, cur: Cmd)
    requires AtFile(g, used, ts, stdin, cur)
    ensures |used.text| + |TokenText(ts)| <= CBUF_SIZE
    ensures ts != [] && IsIdentifier(ts[0]) ==>
      AtToken(g, used.Plus(Chars(TokenText(ts))), ts[1..], WithFile(ts[0], stdin, cur))
    ensures ts == [] || !IsIdentifier(ts[0]) ==> g.use == used.Plus(Chars(TokenText(ts)))
    ensures ts == [] ==> g.use.text == used.text && |used.text| < CBUF_SIZE
  {
    if ts != [] && IsIdentifier(ts[0]) {
      PlusAssociates(used, Chars(TokenText(ts)), UseRest(ts[1..], WithFile(ts[0], stdin, cur)));
    }
  }

  lemma TokenNext(g: Goal, used: Use, ts: seq<string>, cur: Cmd)
    requires AtToken(g, used, ts, cur) && AllTokens(ts)
    ensures |used.text| + |TokenText(ts)| <= CBUF_SIZE
    ensures ts == [] ==> g.outcome == Accepted(cur) && g.use == used.Plus(Chars(TokenText(ts)))
    ensures ts != [] && !IsSign(ts[0]) ==> g.outcome == Rejected && g.use == used.Plus(Chars(TokenText(ts)))
  {
  }

  lemma SignText(t: string)
    requires IsToken(t)
    ensures t[0] == '|' <==> t == "|"
    ensures t[0] == '&' <==> t == "&"
    ensures t[0] == '<' <==> t == "<"
    ensures t[0] == '>' <==> t == ">"
    ensures IsSign(t) <==> t[0] in "|&<>"
  {
  }

  // ----- bounds

  function Length(ts: seq<string>): nat {
    if ts == [] then 0 else |ts[0]| + Length(ts[1..])
  }

  lemma {:induction false} TokensWithin(line: string)
    requires IsLine(line)
    ensures Length(Tokens(line)) <= |line|
    decreases |line|
  {
    if !Ended(line) {
      FirstIsToken(line);
      TokensWithin(Behind(line));
      assert Tokens(line)[1..] == Tokens(Behind(line));
    }
  }

  lemma {:induction false} WordsWithin(ts: seq<string>, n: nat)
    requires n <= |ts| && AllTokens(ts)
    ensures n <= Length(ts) - Length(ts[n..])
    ensures |WordText(ts, n)| == Length(ts) - Length(ts[n..]) + n
  {
    if n > 0 {
      WordsWithin(ts[1..], n - 1);
      assert ts[1..][n - 1..] == ts[n..];
    }
  }

  predicate CmdWithin(u: Use, length: nat) {
    |u.text| <= 3 * length && u.ptrs <= length + 1 && u.cells <= length / 2 + 1
  }

  predicate RestWithin(u: Use, length: nat) {
    |u.text| <= (if length == 0 then 0 else 3 * length - 1) && u.ptrs <= length && u.cells <= (length + 1) / 2
  }

  lemma FirstToken(ts: seq<string>)
    requires AllTokens(ts) && ts != []
    ensures Length(ts) == |ts[0]| + Length(ts[1..]) && |ts[0]| >= 1
  {
  }

  lemma {:induction false} UseCmdWithin(ts: seq<string>, c: Cmd)
    requires AllTokens(ts)
    ensures CmdWithin(UseCmd(ts, c), Length(ts))
    decreases |ts|, 1
  {
    var n := WordCount(ts);
    var rest := ts[n..];
    WordsWithin(ts, n);
    StopIsSign(ts);
    if n > 0 {
      UseRestWithin(rest, c.(pgms := [ts[..n]] + c.pgms));
    }
    if rest != [] {
      FirstToken(rest);
    }
  }

  lemma {:induction false} StopIsSign(ts: seq<string>)
    requires AllTokens(ts)
    ensures WordCount(ts) < |ts| ==> IsSign(ts[WordCount(ts)])
  {
    if ts != [] && !IsSign(ts[0]) {
      StopIsSign(ts[1..]);
    }
  }

  lemma PipeWithin(ts: seq<string>, c: Cmd)
    requires AllTokens(ts) && ts != [] && ts[0] == "|" && CmdWithin(UseCmd(ts[1..], c), Length(ts[1..]))
    ensures RestWithin(UseRest(ts, c), Length(ts))
  {
    FirstToken(ts);
  }

  lemma BackgroundWithin(ts: seq<string>, c: Cmd)
    requires AllTokens(ts) && ts != [] && ts[0] == "&"
    ensures RestWithin(UseRest(ts, c), Length(ts))
  {
    FirstToken(ts);
    if |ts| > 1 {
      FirstToken(ts[1..]);
    }
  }

  lemma RedirectionWithin(ts: seq<string>, c: Cmd)
    requires AllTokens(ts) && ts != [] && ts[0] != "|" && ts[0] != "&"
    requires FileWithin(UseFile(ts[1..], ts[0] == "<", c), Length(ts[1..]))
    ensures RestWithin(UseRest(ts, c), Length(ts))
  {
    FirstToken(ts);
  }

  lemma {:induction false} UseRestWithin(ts: seq<string>, c: Cmd)
    requires AllTokens(ts)
    ensures RestWithin(UseRest(ts, c), Length(ts))
    decreases |ts|, 0
  {
    if ts != [] {
      if ts[0] == "|" {
        UseCmdWithin(ts[1..], c);
        PipeWithin(ts, c);
      } else if ts[0] == "&" {
        BackgroundWithin(ts, c);
      } else {
        UseFileWithin(ts[1..], ts[0] == "<", c);
        RedirectionWithin(ts, c);
      }
    }
  }

  predicate FileWithin(u: Use, length: nat) {
    |u.text| <= 3 * length && u.ptrs <= length && u.cells <= (length + 1) / 2
  }

  lemma {:induction false} UseFileWithin(ts: seq<string>, stdin: bool, c: Cmd)
    requires AllTokens(ts)
    ensures FileWithin(UseFile(ts, stdin, c), Length(ts))
    decreases |ts|, 1
  {
    if ts != [] {
      FirstToken(ts);
      UseRestWithin(ts[1..], WithFile(ts[0], stdin, c));
    }
  }

  /** A line of n characters takes at most 3n characters, n + 1 pointers and n/2 + 1 cells. */
  lemma LineWithin(line: string)
    requires IsLine(line)
    ensures CmdWithin(UseLine(line), |line|)
  {
    TokensAreTokens(line);
    TokensWithin(line);
    UseCmdWithin(Tokens(line), EMPTY);
  }

  /** Every line of up to 39 characters is parsed within the pools. */
  lemma ShortLinesFit(line: string)
    requires IsLine(line) && |line| <= 39
    ensures Parsable(line)
  {
    LineWithin(line);
  }
}
