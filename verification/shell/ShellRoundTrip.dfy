/** Commands written out as lines, and parsed again. */
module ShellRoundTrip {
  import opened ShellSyntax
  import opened ShellGrammar

  /** A line with the given tokens, each followed by a space. */
  function Spell(ts: seq<string>): string {
    if ts == [] then "" else ts[0] + " " + Spell(ts[1..])
  }

  lemma {:induction false} SpelledLine(ts: seq<string>)
    requires AllTokens(ts)
    ensures IsLine(Spell(ts))
  {
    if ts != [] {
      SpelledLine(ts[1..]);
      assert IsLine(ts[0]);
    }
  }

  lemma {:induction false} WordEnds(w: string, rest: string)
    requires forall i :: 0 <= i < |w| ==> IsWordChar(w[i])
    requires rest == [] || !IsWordChar(rest[0])
    ensures WordLength(w + rest) == |w|
  {
    if w == [] {
      assert w + rest == rest;
    } else {
      assert (w + rest)[1..] == w[1..] + rest;
      WordEnds(w[1..], rest);
    }
  }

  lemma TokenInFront(t: string, rest: string)
    requires IsToken(t) && IsLine(t + " " + rest) && IsLine(" " + rest)
    ensures Tokens(t + " " + rest) == [t] + Tokens(" " + rest)
  {
    var s := t + (" " + rest);
    assert t + " " + rest == s;
    if IsSign(t) {
      assert TokenLength(s) == 1;
    } else {
      WordEnds(t, " " + rest);
      assert TokenLength(s) == |t|;
    }
    assert Blanks(s) == 0 && s[0..] == s;
    assert s[..|t|] == t && s[|t|..] == " " + rest;
  }

  lemma BlankInFront(rest: string)
    requires IsLine(rest) && IsLine(" " + rest)
    ensures Tokens(" " + rest) == Tokens(rest)
  {
    var s := " " + rest;
    assert s[1..] == rest;
    assert Blanks(s) == 1 + Blanks(rest);
    assert s[Blanks(s)..] == rest[Blanks(rest)..];
  }

  /** The tokens of a spelled line are the tokens spelled. */
  lemma {:induction false} SpelledTokens(ts: seq<string>)
    requires AllTokens(ts) && IsLine(Spell(ts))
    ensures Tokens(Spell(ts)) == ts
  {
    if ts != [] {
      var rest := Spell(ts[1..]);
      SpelledLine(ts[1..]);
      SpelledTokens(ts[1..]);
      TokenInFront(ts[0], rest);
      BlankInFront(rest);
    }
  }

  // ----- a command as a sentence

  predicate IsFile(f: Option<string>) {
    f.Some? ==> f.value != [] && IsIdentifier(f.value)
  }

  /** Commands that can be written down: programs with words, and files with identifiers for names. */
  predicate Printable(c: Cmd) {
    c.pgms != [] && (forall i :: 0 <= i < |c.pgms| ==> IsCommand(c.pgms[i])) && IsFile(c.stdin) && IsFile(c.stdout)
  }

  function Pipes(cmds: seq<seq<string>>): seq<Item> {
    if cmds == [] then [] else [Pipe(cmds[0])] + Pipes(cmds[1..])
  }

  function Redirections(c: Cmd): seq<Item> {
    (if c.stdin.Some? then [In(c.stdin.value)] else []) + if c.stdout.Some? then [Out(c.stdout.value)] else []
  }

  /** The programs first to last, then the redirections. */
  function SentenceOf(c: Cmd): Sentence
    requires Printable(c)
  {
    var cmds := Reversed(c.pgms);
    ReversedLength(c.pgms);
    Sentence(cmds[0], Pipes(cmds[1..]) + Redirections(c), c.background)
  }

  function Print(c: Cmd): string
    requires Printable(c)
  {
    Spell(Yield(SentenceOf(c)))
  }

  lemma {:induction false} ReversedLength<T>(s: seq<T>)
    ensures |Reversed(s)| == |s|
    ensures forall i :: 0 <= i < |s| ==> Reversed(s)[i] == s[|s| - 1 - i]
  {
    if s != [] {
      ReversedLength(s[1..]);
    }
  }

  lemma {:induction false} ReversedTwice<T>(s: seq<T>)
    ensures Reversed(Reversed(s)) == s
  {
    if s != [] {
      ReversedTwice(s[1..]);
      ReversedAppend(Reversed(s[1..]), [s[0]]);
      assert Reversed([s[0]]) == [s[0]];
    }
  }

  lemma {:induction false} PipesMean(cmds: seq<seq<string>>, more: seq<Item>)
    requires forall i :: 0 <= i < |cmds| ==> IsCommand(cmds[i])
    ensures Piped(Pipes(cmds) + more) == cmds + Piped(more)
    ensures Ins(Pipes(cmds) + more) == Ins(more) && Outs(Pipes(cmds) + more) == Outs(more)
    ensures AllGood(more) ==> AllGood(Pipes(cmds) + more)
  {
    var items := Pipes(cmds) + more;
    if cmds == [] {
      assert items == more;
    } else {
      PipesMean(cmds[1..], more);
      assert items[0] == Pipe(cmds[0]) && items[1..] == Pipes(cmds[1..]) + more;
      assert items == [items[0]] + items[1..];
    }
  }

  lemma OneRedirection(it: Item)
    requires !it.Pipe?
    ensures Piped([it]) == []
    ensures Ins([it]) == if it.In? then [it.file] else []
    ensures Outs([it]) == if it.Out? then [it.file] else []
  {
    assert [it][1..] == [];
  }

  lemma RedirectionsMean(c: Cmd)
    requires Printable(c)
    ensures Piped(Redirections(c)) == [] && AllGood(Redirections(c))
    ensures |Ins(Redirections(c))| <= 1 && |Outs(Redirections(c))| <= 1
    ensures Only(Ins(Redirections(c))) == c.stdin && Only(Outs(Redirections(c))) == c.stdout
  {
    var r := Redirections(c);
    var outs: seq<Item> := if c.stdout.Some? then [Out(c.stdout.value)] else [];
    if outs != [] {
      OneRedirection(outs[0]);
    }
    assert Piped(outs) == [] && Ins(outs) == [] && Only(Outs(outs)) == c.stdout;
    if c.stdin.Some? {
      assert r[1..] == outs;
    } else {
      assert r == outs;
    }
  }

  lemma SentenceMeans(c: Cmd)
    requires Printable(c)
    ensures WellFormed(SentenceOf(c)) && Meaning(SentenceOf(c)) == c
  {
    var cmds := Reversed(c.pgms);
    ReversedLength(c.pgms);
    ReversedTwice(c.pgms);
    RedirectionsMean(c);
    PipesMean(cmds[1..], Redirections(c));
    assert [cmds[0]] + Piped(SentenceOf(c).items) == cmds;
    assert forall i :: 0 <= i < |cmds| ==> IsCommand(cmds[i]);
  }

  // ----- its tokens

  lemma FileIsWord(f: string)
    requires f != [] && IsIdentifier(f)
    ensures IsWord(f)
  {
    forall i | 0 <= i < |f| ensures IsWordChar(f[i]) {
      assert IsIdChar(f[i]);
    }
  }

  predicate NamedFiles(items: seq<Item>) {
    forall i :: 0 <= i < |items| && !items[i].Pipe? ==> items[i].file != []
  }

  lemma ItemIsTokens(it: Item)
    requires Good(it) && (!it.Pipe? ==> it.file != [])
    ensures AllTokens(ItemTokens(it))
  {
    if !it.Pipe? {
      FileIsWord(it.file);
    }
    assert IsSign("|") && IsSign("<") && IsSign(">");
  }

  lemma {:induction false} TailIsTokens(items: seq<Item>, background: bool)
    requires AllGood(items) && NamedFiles(items)
    ensures AllTokens(Tail(items, background))
  {
    if items == [] {
      assert IsSign("&");
    } else {
      ItemIsTokens(items[0]);
      TailIsTokens(items[1..], background);
    }
  }

  lemma {:induction false} PipesNameNoFile(cmds: seq<seq<string>>)
    ensures forall i :: 0 <= i < |Pipes(cmds)| ==> Pipes(cmds)[i].Pipe?
  {
    if cmds != [] {
      PipesNameNoFile(cmds[1..]);
    }
  }

  lemma YieldIsTokens(c: Cmd)
    requires Printable(c)
    ensures AllTokens(Yield(SentenceOf(c)))
  {
    var s := SentenceOf(c);
    SentenceMeans(c);
    PipesNameNoFile(Reversed(c.pgms)[1..]);
    assert NamedFiles(s.items);
    TailIsTokens(s.items, s.background);
  }

  /** Printing a command and parsing the line gives the command back. */
  lemma PrintThenParse(c: Cmd)
    requires Printable(c)
    ensures IsLine(Print(c)) && ParseLine(Print(c)) == Accepted(c)
  {
    var s := SentenceOf(c);
    YieldIsTokens(c);
    SpelledLine(Yield(s));
    SpelledTokens(Yield(s));
    SentenceMeans(c);
    SentenceAccepted(s);
  }

  // ----- every accepted command can be printed

  lemma {:induction false} PipedAreCommands(items: seq<Item>)
    requires AllGood(items)
    ensures forall i :: 0 <= i < |Piped(items)| ==> IsCommand(Piped(items)[i])
    ensures forall i :: 0 <= i < |Ins(items)| ==> IsIdentifier(Ins(items)[i])
    ensures forall i :: 0 <= i < |Outs(items)| ==> IsIdentifier(Outs(items)[i])
  {
    if items != [] {
      PipedAreCommands(items[1..]);
    }
  }

  lemma {:induction false} FilesAreTokens(items: seq<Item>, background: bool)
    requires AllTokens(Tail(items, background))
    ensures forall i :: 0 <= i < |Ins(items)| ==> Ins(items)[i] != []
    ensures forall i :: 0 <= i < |Outs(items)| ==> Outs(items)[i] != []
  {
    if items != [] {
      var ts, more := Tail(items, background), Tail(items[1..], background);
      var k := |ItemTokens(items[0])|;
      assert ts[k..] == more;
      if !items[0].Pipe? {
        assert ts[1] == items[0].file;
      }
      FilesAreTokens(items[1..], background);
    }
  }

  lemma AcceptedIsPrintable(line: string, d: Cmd)
    requires IsLine(line) && ParseLine(line) == Accepted(d)
    ensures Printable(d)
  {
    TokensAreTokens(line);
    var s := SentenceRead(Tokens(line), d);
    PipedAreCommands(s.items);
    assert Tokens(line)[|s.first|..] == Tail(s.items, s.background);
    FilesAreTokens(s.items, s.background);
    ReversedLength([s.first] + Piped(s.items));
  }

  /** Whatever the parser accepts survives being printed and parsed. */
  lemma ParseThenPrint(line: string, d: Cmd)
    requires IsLine(line) && ParseLine(line) == Accepted(d)
    ensures Printable(d) && IsLine(Print(d)) && ParseLine(Print(d)) == Accepted(d)
  {
    AcceptedIsPrintable(line, d);
    PrintThenParse(d);
  }
}
