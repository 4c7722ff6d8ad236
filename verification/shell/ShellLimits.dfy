/** Where the parser's limits are: lines that reach the bound on its cells, and lines whose fate depends
    on earlier ones. */
module ShellLimits {
  import opened ShellSyntax
  import opened ShellPools
  import opened ShellMemory
  import opened ShellScan

  /** A letter and a pipe, `k` times over. */
  function Pairs(k: nat): string {
    seq(2 * k, i => if i % 2 == 0 then 'a' else '|')
  }

  function PairTokens(k: nat): seq<string> {
    if k == 0 then [] else [['a'], ['|']] + PairTokens(k - 1)
  }

  lemma OnePair(line: string, s: nat)
    requires IsLine(line) && s + 1 < |line| && line[s] == 'a' && line[s + 1] == '|'
    ensures TokensFrom(line, s) == [['a'], ['|']] + TokensFrom(line, s + 2)
  {
    assert Skip(line, s) == s && WordEnd(line, s + 1) == s + 1 && TokenEnd(line, s) == s + 1;
    assert Skip(line, s + 1) == s + 1 && TokenEnd(line, s + 1) == s + 2;
    assert line[s..s + 1] == ['a'] && line[s + 1..s + 2] == ['|'];
    assert TokensFrom(line, s + 1) == [['|']] + TokensFrom(line, s + 2);
  }

  // The last `j` of `k` pairs.
  lemma {:induction false} LastPairs(line: string, k: nat, j: nat)
    requires line == Pairs(k) && IsLine(line) && j <= k
    ensures TokensFrom(line, 2 * (k - j)) == PairTokens(j)
  {
    if j > 0 {
      OnePair(line, 2 * (k - j));
      LastPairs(line, k, j - 1);
    }
  }

  lemma PairUses(ts: seq<string>, us: seq<string>, w: string, c: Cmd)
    requires ts == [w, ['|']] + us && !IsSign(w)
    ensures UseCmd(ts, c).cells == 1 + UseCmd(us, c.(pgms := [[w]] + c.pgms)).cells
  {
    var rest := ts[1..];
    assert rest[0] == "|" && rest[1..] == us && IsSign(rest[0]);
    assert WordCount(rest) == 0 && WordCount(ts) == 1 && ts[..1] == [w];
  }

  lemma {:induction false} PairsTake(k: nat, c: Cmd)
    ensures UseCmd(PairTokens(k), c).cells == k + 1
  {
    if k > 0 {
      PairUses(PairTokens(k), PairTokens(k - 1), ['a'], c);
      PairsTake(k - 1, c.(pgms := [[['a']]] + c.pgms));
    }
  }

  /** For every even length there is a line that takes all n/2 + 1 cells; so one of 40 characters does
      not fit. */
  lemma CellsReached(k: nat)
    ensures IsLine(Pairs(k)) && |Pairs(k)| == 2 * k && UseLine(Pairs(k)).cells == |Pairs(k)| / 2 + 1
    ensures k == 20 ==> |Pairs(k)| == 40 && !UseLine(Pairs(k)).Fits()
  {
    var line := Pairs(k);
    LastPairs(line, k, k);
    SameTokens(line, 0);
    assert line[0..] == line;
    PairsTake(k, EMPTY);
  }

  // ----- what earlier lines decide

  /** A line of one word: `p` letters and a last character. */
  function OneWord(p: nat, last: char): string {
    seq(p, _ => 'a') + [last]
  }

  lemma {:induction false} AllWordChars(line: string, a: nat)
    requires a <= |line| && forall i :: a <= i < |line| ==> IsWordChar(line[i])
    ensures WordEnd(line, a) == |line|
    decreases |line| - a
  {
    if a < |line| {
      AllWordChars(line, a + 1);
    }
  }

  lemma OneWordTokens(p: nat, last: char)
    requires IsWordChar(last)
    ensures IsLine(OneWord(p, last)) && Tokens(OneWord(p, last)) == [OneWord(p, last)]
  {
    var line := OneWord(p, last);
    AllWordChars(line, 0);
    SameTokens(line, 0);
    assert line[0..] == line && line[0..|line|] == line;
    assert Skip(line, 0) == 0 && TokenEnd(line, 0) == |line|;
    assert TokensFrom(line, |line|) == [];
  }

  lemma OneTokenUse(ts: seq<string>, c: Cmd)
    requires |ts| == 1 && !IsSign(ts[0])
    ensures UseCmd(ts, c) == Use(ts[0] + ['\0'], 2, 1)
  {
    assert WordCount(ts[1..]) == 0 && WordCount(ts) == 1 && ts[1..] == [];
    assert WordText(ts, 1) == ts[0] + ['\0'] + WordText(ts[1..], 0);
    assert UseRest(ts[1..], c.(pgms := [ts[..1]] + c.pgms)) == Chars("");
  }

  lemma OneTokenParse(ts: seq<string>, c: Cmd)
    requires |ts| == 1 && !IsSign(ts[0])
    ensures ParseCmd(ts, c).Accepted?
  {
    assert WordCount(ts[1..]) == 0 && WordCount(ts) == 1 && ts[1..] == [];
  }

  /** A word of up to 255 characters leaves its last one where it stood. */
  lemma OneWordLeaves(p: nat, last: char, before: string)
    requires p < CBUF_SIZE - 1 && |before| == CBUF_SIZE && IsWordChar(last)
    ensures Parsable(OneWord(p, last)) && ParseLine(OneWord(p, last)).Accepted?
    ensures CString(LeftInCbuf(OneWord(p, last), before), p) == [last]
  {
    var line := OneWord(p, last);
    OneWordTokens(p, last);
    assert !IsSpec(line[0]);
    OneTokenUse([line], EMPTY);
    OneTokenParse([line], EMPTY);
    var after := LeftInCbuf(line, before);
    assert after[p] == last && after[p + 1] == '\0';
    assert CString(after, p + 1) == "";
  }

  predicate EndsInZero(text: string) {
    text != "" ==> text[|text| - 1] == '\0'
  }

  lemma {:induction false} WordTextEnds(ts: seq<string>, n: nat)
    requires n <= |ts|
    ensures EndsInZero(WordText(ts, n))
  {
    if n > 0 {
      WordTextEnds(ts[1..], n - 1);
    }
  }

  lemma PlusEnds(u: Use, v: Use)
    requires EndsInZero(u.text) && EndsInZero(v.text)
    ensures EndsInZero(u.Plus(v).text)
  {
  }

  lemma UseWordsEnds(ts: seq<string>)
    ensures EndsInZero(UseWords(ts).text)
  {
    var n := WordCount(ts);
    WordTextEnds(ts, n);
    PlusEnds(Chars(WordText(ts, n)), Chars(TokenText(ts[n..])));
  }

  lemma {:induction false} UseCmdEnds(ts: seq<string>, c: Cmd)
    ensures EndsInZero(UseCmd(ts, c).text)
    decreases |ts|, 1
  {
    var n := WordCount(ts);
    UseWordsEnds(ts);
    if n > 0 {
      var d := c.(pgms := [ts[..n]] + c.pgms);
      UseRestEnds(ts[n..], d);
      PlusEnds(UseWords(ts), UseRest(ts[n..], d));
    }
  }

  lemma {:induction false} UseRestEnds(ts: seq<string>, c: Cmd)
    ensures EndsInZero(UseRest(ts, c).text)
    decreases |ts|, 0
  {
    var first := Chars(TokenText(ts));
    if ts != [] {
      UseCmdEnds(ts[1..], c);
      PlusEnds(first, UseCmd(ts[1..], c));
      PlusEnds(first, Chars(TokenText(ts[1..])));
      UseFileEnds(ts[1..], true, c);
      PlusEnds(first, UseFile(ts[1..], true, c));
      UseFileEnds(ts[1..], false, c);
      PlusEnds(first, UseFile(ts[1..], false, c));
    }
  }

  lemma {:induction false} UseFileEnds(ts: seq<string>, stdin: bool, c: Cmd)
    ensures EndsInZero(UseFile(ts, stdin, c).text)
    decreases |ts|, 1
  {
    if ts != [] {
      UseRestEnds(ts[1..], WithFile(ts[0], stdin, c));
      PlusEnds(Chars(TokenText(ts)), UseRest(ts[1..], WithFile(ts[0], stdin, c)));
    }
  }

  /** Every line leaves the zero at the end of cbuf. */
  lemma LastZeroStays(line: string, before: string)
    requires Parsable(line) && |before| == CBUF_SIZE && before[CBUF_SIZE - 1] == '\0'
    ensures LeftInCbuf(line, before)[CBUF_SIZE - 1] == '\0'
  {
    UseCmdEnds(Tokens(line), EMPTY);
  }

  /** Two earlier lines after which the same line is accepted and rejected. */
  ghost predicate Decide(first: string, second: string, line: string, before: string)
    requires Parsable(line) && |before| == CBUF_SIZE
  {
    && Parsable(first) && Parsable(second)
    && Verdict(line, LeftInCbuf(first, before)) == 1 && Verdict(line, LeftInCbuf(second, before)) == -1
  }

  lemma LettersDecide(line: string, before: string, p: nat)
    requires Parsable(line) && |before| == CBUF_SIZE && ParseLine(line).Dangling?
    requires p == |UseLine(line).text| < CBUF_SIZE - 1
    ensures Decide(OneWord(p, 'a'), OneWord(p, '!'), line, before)
  {
    OneWordLeaves(p, 'a', before);
    OneWordLeaves(p, '!', before);
    assert !IsIdChar("!"[0]) && IsIdChar("a"[0]);
  }

  /** Whatever cbuf holds, there are an earlier line after which parse accepts the line and one after which it
      rejects it, if and only if the line ends behind a redirection sign and leaves two characters of cbuf. */
  lemma EarlierLinesDecideExactly(line: string, before: string)
    requires Parsable(line) && |before| == CBUF_SIZE && before[CBUF_SIZE - 1] == '\0'
    ensures (exists first, second :: Decide(first, second, line, before))
       <==> ParseLine(line).Dangling? && |UseLine(line).text| < CBUF_SIZE - 1
  {
    var p := |UseLine(line).text|;
    if ParseLine(line).Dangling? && p < CBUF_SIZE - 1 {
      LettersDecide(line, before, p);
    } else {
      forall first, second ensures !Decide(first, second, line, before) {
        if Parsable(second) {
          LastZeroStays(second, before);
        }
      }
    }
  }

  /** Such lines exist: a letter and a redirection sign. */
  lemma SomeLineDangles() returns (line: string)
    ensures Parsable(line) && ParseLine(line).Dangling? && |UseLine(line).text| < CBUF_SIZE - 1
  {
    line := ['a', '<'];
    assert Skip(line, 0) == 0 && WordEnd(line, 1) == 1 && TokenEnd(line, 0) == 1 && line[0..1] == ['a'];
    assert Skip(line, 1) == 1 && TokenEnd(line, 1) == 2 && line[1..2] == ['<'];
    assert TokensFrom(line, 2) == [] && TokensFrom(line, 1) == [['<']];
    SameTokens(line, 0);
    assert line[0..] == line;
    DanglingTokens(Tokens(line));
    ShortLinesFit(line);
    LineWithin(line);
  }

  lemma DanglingTokens(ts: seq<string>)
    requires ts == [['a'], ['<']]
    ensures ParseCmd(ts, EMPTY).Dangling?
  {
    var rest := ts[1..];
    assert IsSign(rest[0]) && WordCount(rest) == 0 && WordCount(ts) == 1;
    assert rest[0] == "<" && |rest| == 1;
  }
}
