/** What parse writes to cbuf and takes of the other pools on a line, and where it stops reading, told by the
    grammar. */
module ShellReading {
  import opened ShellSyntax
  import opened ShellGrammar
  import opened ShellLexing
  import opened ShellPools
  import opened ShellDangling

  /** Each token with a zero behind it. */
  function Words(ws: seq<string>): string {
    if ws == [] then "" else ws[0] + ['\0'] + Words(ws[1..])
  }

  /** A pointer for each word and one for the NULL behind each command. */
  function Pointers(cmds: seq<seq<string>>): nat {
    if cmds == [] then 0 else |cmds[0]| + 1 + Pointers(cmds[1..])
  }

  // The token behind the items, or behind nothing; `e` is what parse has not got to.
  function NextToken(items: seq<Item>, e: seq<string>): seq<string> {
    if items != [] then [ItemTokens(items[0])[0]] else if e != [] then [e[0]] else []
  }

  /** Each token with its zero; the one behind a command is read with the command, and once more after it. */
  function ItemText(it: Item, next: seq<string>): string {
    if it.Pipe? then Words(ItemTokens(it)) + Words(next) else Words(ItemTokens(it))
  }

  function ItemsText(items: seq<Item>, e: seq<string>): string {
    if items == [] then "" else ItemText(items[0], NextToken(items[1..], e)) + ItemsText(items[1..], e)
  }

  // A word cannot stand behind a command: it would belong to it.
  predicate Joins(items: seq<Item>, e: seq<string>) {
    items != [] && items[|items| - 1].Pipe? ==> e == [] || IsSign(e[0])
  }

  // ----- a sentence, read to its end

  lemma {:induction false} WordsOf(cmd: seq<string>, rest: seq<string>)
    ensures WordText(cmd + rest, |cmd|) == Words(cmd)
  {
    if cmd != [] {
      assert (cmd + rest)[1..] == cmd[1..] + rest;
      WordsOf(cmd[1..], rest);
    }
  }

  lemma {:induction false} CommandUses(cmd: seq<string>, rest: seq<string>, c: Cmd)
    requires IsCommand(cmd) && (rest == [] || IsSign(rest[0]))
    ensures UseCmd(cmd + rest, c) ==
      Use(Words(cmd) + TokenText(rest), |cmd| + 1, 1).Plus(UseRest(rest, c.(pgms := [cmd] + c.pgms)))
  {
    WordsInFront(cmd, rest);
    WordsOf(cmd, rest);
    assert (cmd + rest)[..|cmd|] == cmd && (cmd + rest)[|cmd|..] == rest;
  }

  lemma OneWord(ts: seq<string>)
    requires |ts| <= 1
    ensures TokenText(ts) == Words(ts)
  {
  }

  lemma TwoWords(a: string, b: string)
    ensures Words([a, b]) == a + ['\0'] + (b + ['\0'])
  {
    assert [a, b][1..] == [b];
    OneWord([b]);
  }

  lemma WordsOneMore(t: string, ws: seq<string>)
    ensures Words([t] + ws) == t + ['\0'] + Words(ws)
  {
    assert ([t] + ws)[1..] == ws;
  }

  lemma {:induction false} NextTokenRead(items: seq<Item>, e: seq<string>)
    ensures TokenText(Tail(items, false) + e) == Words(NextToken(items, e))
  {
    if items == [] {
      assert Tail(items, false) + e == e;
    } else {
      TailSplits(items, e);
      assert (Tail(items, false) + e)[0] == ItemTokens(items[0])[0];
    }
    OneWord(NextToken(items, e));
  }

  lemma {:induction false} FileUses(sign: string, file: string, more: seq<string>, stdin: bool, c: Cmd)
    requires IsIdentifier(file) && SideOf(stdin, c) == None && sign == if stdin then "<" else ">"
    ensures UseRest([sign, file] + more, c) == Chars(Words([sign, file])).Plus(UseRest(more, WithFile(file, stdin, c)))
  {
    var ts := [sign, file] + more;
    assert ts[0] == sign && ts[1..] == [file] + more && ts[1..][1..] == more;
    PlusAssociates(Chars(sign + ['\0']), Chars(file + ['\0']), UseRest(more, WithFile(file, stdin, c)));
    TwoWords(sign, file);
  }

  lemma PipeBegins(ts: seq<string>, c: Cmd)
    requires ts != [] && ts[0] == "|"
    ensures UseRest(ts, c) == Chars(ts[0] + ['\0']).Plus(UseCmd(ts[1..], c))
  {
  }

  lemma CharsInFront(a: string, b: string, m: string, n: nat, u: Use)
    ensures Chars(a).Plus(Use(b + m, n, 1).Plus(u)) == Use(a + b + m, n, 1).Plus(u)
  {
    assert a + (b + m + u.text) == a + b + m + u.text;
  }

  lemma {:induction false} PipeUses(sign: string, cmd: seq<string>, more: seq<string>, c: Cmd)
    requires sign == "|" && IsCommand(cmd) && (more == [] || IsSign(more[0]))
    ensures UseRest([sign] + cmd + more, c) ==
      Use(Words([sign] + cmd) + TokenText(more), |cmd| + 1, 1).Plus(UseRest(more, c.(pgms := [cmd] + c.pgms)))
  {
    var ts := [sign] + cmd + more;
    var d := c.(pgms := [cmd] + c.pgms);
    assert UseRest(ts, c) == Chars(sign + ['\0']).Plus(UseCmd(cmd + more, c)) by {
      PipeBegins(ts, c);
      assert ts[0] == sign && ts[1..] == cmd + more;
    }
    assert Words([sign] + cmd) == sign + ['\0'] + Words(cmd) by {
      WordsOneMore(sign, cmd);
    }
    CommandUses(cmd, more, c);
    CharsInFront(sign + ['\0'], Words(cmd), TokenText(more), |cmd| + 1, UseRest(more, d));
  }

  // What one item writes and takes.
  function ItemUse(it: Item, next: seq<string>): Use {
    Use(ItemText(it, next), if it.Pipe? then |it.cmd| + 1 else 0, if it.Pipe? then 1 else 0)
  }

  lemma {:induction false} ItemUses(it: Item, more: seq<string>, c: Cmd)
    requires Good(it) && (it.In? ==> c.stdin.None?) && (it.Out? ==> c.stdout.None?)
    requires it.Pipe? ==> more == [] || IsSign(more[0])
    ensures UseRest(ItemTokens(it) + more, c) ==
      ItemUse(it, if more == [] then [] else [more[0]]).Plus(UseRest(more, Step(it, c)))
  {
    match it
    case Pipe(cmd) =>
      PipeUses("|", cmd, more, c);
      OneWord(if more == [] then [] else [more[0]]);
    case In(file) => FileUses("<", file, more, true, c);
    case Out(file) => FileUses(">", file, more, false, c);
  }

  function ItemsUse(items: seq<Item>, e: seq<string>): Use {
    Use(ItemsText(items, e), Pointers(Piped(items)), |Piped(items)|)
  }

  lemma {:induction false} ItemsUseSplits(items: seq<Item>, e: seq<string>)
    requires items != []
    ensures ItemsUse(items, e) == ItemUse(items[0], NextToken(items[1..], e)).Plus(ItemsUse(items[1..], e))
  {
    if items[0].Pipe? {
      assert Piped(items)[1..] == Piped(items[1..]);
    } else {
      assert Piped(items) == [] + Piped(items[1..]) == Piped(items[1..]);
    }
  }

  lemma NextOf(items: seq<Item>, e: seq<string>)
    ensures var more := Tail(items, false) + e; NextToken(items, e) == if more == [] then [] else [more[0]]
  {
    if items == [] {
      assert Tail(items, false) + e == e;
    } else {
      TailSplits(items, e);
      assert (Tail(items, false) + e)[0] == ItemTokens(items[0])[0];
    }
  }

  lemma {:induction false} TailReads(items: seq<Item>, e: seq<string>, c: Cmd)
    requires AllGood(items) && RoomFor(items, c) && !c.background && Joins(items, e)
    ensures UseRest(Tail(items, false) + e, c) == ItemsUse(items, e).Plus(UseRest(e, Applied(items, false, c)))
    decreases |items|
  {
    if items == [] {
      assert Tail(items, false) + e == e && Applied(items, false, c) == c by {
        assert Reversed(Piped([])) + c.pgms == c.pgms;
      }
      assert "" + UseRest(e, c).text == UseRest(e, c).text;
    } else {
      var rest, d := items[1..], Step(items[0], c);
      RoomForFirst(items, c);
      AfterItem(items, false, c);
      TailSplits(items, e);
      TailBehind(items, e);
      ItemUses(items[0], Tail(rest, false) + e, c);
      NextOf(rest, e);
      TailReads(rest, e, d);
      ItemsUseSplits(items, e);
      PlusAssociates(ItemUse(items[0], NextToken(rest, e)), ItemsUse(rest, e), UseRest(e, Applied(rest, false, d)));
    }
  }

  lemma {:induction false} TailBehind(items: seq<Item>, e: seq<string>)
    requires items != [] && Joins(items, e)
    ensures Joins(items[1..], e)
    ensures items[0].Pipe? ==>
      Tail(items[1..], false) + e == [] || IsSign((Tail(items[1..], false) + e)[0])
  {
    if |items| > 1 {
      TailBegins(items[1..], false);
      assert Tail(items[1..], false)[0] == ItemTokens(items[1])[0];
    } else {
      assert items[1..] == [] && Tail([], false) + e == e;
    }
  }

  // ----- where reading stops

  /** Parse does not go on behind `e`, having read the command `c`: the line ends, or '&', or a word behind a
      file, or a pipe without a command, or a redirection that is a second one or has no file. */
  predicate Stops(e: seq<string>, c: Cmd) {
    || e == [] || !IsSign(e[0]) || e[0] == "&"
    || (e[0] == "|" && (|e| == 1 || IsSign(e[1])))
    || (e[0] == "<" && (c.stdin.Some? || |e| == 1 || !IsIdentifier(e[1])))
    || (e[0] == ">" && (c.stdout.Some? || |e| == 1 || !IsIdentifier(e[1])))
  }

  /** How many tokens of `e` are read before that is known. */
  function ReadAtStop(e: seq<string>, c: Cmd): (n: nat)
    ensures n <= |e|
  {
    if e == [] then 0
    else if |e| == 1 || !IsSign(e[0]) || (e[0] == "<" && c.stdin.Some?) || (e[0] == ">" && c.stdout.Some?) then 1
    else 2
  }

  // A pipe takes a cell, and a pointer for the NULL, before its command is found to be missing.
  function StopUse(e: seq<string>, c: Cmd): Use {
    var pipe := if e != [] && e[0] == "|" then 1 else 0;
    Use(Words(e[..ReadAtStop(e, c)]), pipe, pipe)
  }

  lemma FirstWords(e: seq<string>)
    ensures |e| >= 1 ==> Words(e[..1]) == TokenText(e)
    ensures |e| >= 2 ==> Words(e[..2]) == e[0] + ['\0'] + (e[1] + ['\0'])
  {
    if |e| >= 1 {
      assert e[..1] == [e[0]];
      OneWord([e[0]]);
    }
    if |e| >= 2 {
      assert e[..2] == [e[0], e[1]];
      TwoWords(e[0], e[1]);
    }
  }

  lemma {:induction false} PipeStops(e: seq<string>, c: Cmd)
    requires e != [] && e[0] == "|" && (|e| == 1 || IsSign(e[1]))
    ensures UseRest(e, c) == StopUse(e, c)
  {
    var rest := e[1..];
    FirstWords(e);
    PipeBegins(e, c);
    assert WordCount(rest) == 0 && rest[0..] == rest && UseCmd(rest, c) == Use("" + TokenText(rest), 1, 1);
    assert "" + TokenText(rest) == TokenText(rest);
    if |e| > 1 {
      assert rest[0] == e[1];
    }
  }

  lemma {:induction false} FileStops(e: seq<string>, stdin: bool, c: Cmd)
    requires e != [] && e[0] == if stdin then "<" else ">"
    requires SideOf(stdin, c) != None || |e| == 1 || !IsIdentifier(e[1])
    ensures UseRest(e, c) == StopUse(e, c)
  {
    FirstWords(e);
    if |e| > 1 {
      assert e[1..][0] == e[1];
    }
  }

  lemma WordOrAndStops(e: seq<string>, c: Cmd)
    requires e != [] && (!IsSign(e[0]) || e[0] == "&")
    ensures UseRest(e, c) == StopUse(e, c)
  {
    FirstWords(e);
    if |e| > 1 {
      assert e[1..][0] == e[1];
    }
  }

  lemma {:induction false} StopUses(e: seq<string>, c: Cmd)
    requires AllTokens(e) && Stops(e, c)
    ensures UseRest(e, c) == StopUse(e, c)
  {
    if e != [] && e[0] == "|" {
      PipeStops(e, c);
    } else if e != [] && e[0] == "<" {
      FileStops(e, true, c);
    } else if e != [] && e[0] == ">" {
      FileStops(e, false, c);
    } else if e != [] {
      SignText(e[0]);
      WordOrAndStops(e, c);
    }
  }

  lemma {:induction false} OneItemOn(ts: seq<string>, c: Cmd) returns (it: Item, more: seq<string>)
    requires AllTokens(ts) && !Stops(ts, c)
    ensures Good(it) && ts == ItemTokens(it) + more && AllTokens(more)
    ensures (it.In? ==> c.stdin.None?) && (it.Out? ==> c.stdout.None?)
    ensures it.Pipe? ==> more == [] || IsSign(more[0])
  {
    SignText(ts[0]);
    if ts[0] == "|" {
      var n := WordCount(ts[1..]);
      WordsCounted(ts[1..]);
      assert ts[1..][0] == ts[1] && n > 0;
      it, more := Pipe(ts[1..][..n]), ts[1..][n..];
      assert ts == ["|"] + ts[1..][..n] + ts[1..][n..];
    } else if ts[0] == "<" {
      it, more := In(ts[1]), ts[2..];
    } else {
      it, more := Out(ts[1]), ts[2..];
    }
  }

  lemma {:induction false} StopFound(ts: seq<string>, c: Cmd) returns (items: seq<Item>, e: seq<string>)
    requires AllTokens(ts)
    ensures ts == Tail(items, false) + e && AllGood(items) && RoomFor(items, c) && AllTokens(e)
    ensures Joins(items, e) && Stops(e, Applied(items, false, c)) && (items == [] ==> e == ts)
    decreases |ts|
  {
    if Stops(ts, c) {
      items, e := [], ts;
      assert Reversed(Piped([])) + c.pgms == c.pgms;
    } else {
      var it, more := OneItemOn(ts, c);
      var rest;
      rest, e := StopFound(more, Step(it, c));
      items := [it] + rest;
      assert items[1..] == rest;
      AfterItem(items, false, c);
      TailSplits(items, e);
    }
  }

  // ----- whole lines

  /** What is read of a command and of the items behind it, and of what follows up to the stop. */
  function ReadUse(first: seq<string>, items: seq<Item>, e: seq<string>, d: Cmd): Use {
    Use(Words(first) + Words(NextToken(items, e)), |first| + 1, 1).Plus(ItemsUse(items, e)).Plus(StopUse(e, d))
  }

  /** The sentence without '&' that a line begins with, and where parse stops behind it. */
  predicate ReadUpTo(s: Sentence, e: seq<string>) {
    && WellFormed(s) && !s.background && AllTokens(e) && Stops(e, Meaning(s))
    && if s.items == [] then e == [] || IsSign(e[0]) else Joins(s.items, e)
  }

  lemma {:induction false} BehindFirst(items: seq<Item>, e: seq<string>)
    requires if items == [] then e == [] || IsSign(e[0]) else Joins(items, e)
    ensures Joins(items, e)
    ensures var tail := Tail(items, false) + e; tail == [] || IsSign(tail[0])
  {
    if items != [] {
      TailBegins(items, false);
    } else {
      assert Tail(items, false) + e == e;
    }
  }

  // The same for any command that has been read in front.
  lemma {:induction false} CommandReads(first: seq<string>, items: seq<Item>, e: seq<string>, c: Cmd, d: Cmd)
    requires IsCommand(first) && AllGood(items) && AllTokens(e) && d == c.(pgms := [first] + c.pgms)
    requires RoomFor(items, d) && !d.background && Stops(e, Applied(items, false, d))
    requires if items == [] then e == [] || IsSign(e[0]) else Joins(items, e)
    ensures UseCmd(first + (Tail(items, false) + e), c) == ReadUse(first, items, e, Applied(items, false, d))
  {
    BehindFirst(items, e);
    CommandUses(first, Tail(items, false) + e, c);
    NextTokenRead(items, e);
    TailReads(items, e, d);
    StopUses(e, Applied(items, false, d));
    PlusAssociates(Use(Words(first) + Words(NextToken(items, e)), |first| + 1, 1), ItemsUse(items, e),
                   StopUse(e, Applied(items, false, d)));
  }

  lemma {:induction false} YieldAppends(s: Sentence, e: seq<string>)
    requires !s.background
    ensures Yield(s) + e == s.first + (Tail(s.items, false) + e)
  {
  }

  lemma {:induction false} FirstRead(s: Sentence, c: Cmd) returns (d: Cmd)
    requires WellFormed(s) && !s.background && c == EMPTY
    ensures d == c.(pgms := [s.first] + c.pgms) && !d.background
    ensures Applied(s.items, false, d) == Meaning(s) && RoomFor(s.items, d)
  {
    d := c.(pgms := [s.first] + c.pgms);
    assert d.pgms == [s.first];
    FirstApplied(s, d);
  }

  lemma {:induction false} SentenceReads(s: Sentence, e: seq<string>, c: Cmd)
    requires ReadUpTo(s, e) && c == EMPTY
    ensures UseCmd(Yield(s) + e, c) == ReadUse(s.first, s.items, e, Meaning(s))
  {
    var d := FirstRead(s, c);
    CommandReads(s.first, s.items, e, c, d);
    YieldAppends(s, e);
  }

  /** Parse writes the tokens that it reads to cbuf, each with its zero and those behind a command twice; it takes
      a cell for each command, and a pointer for each word and each NULL; and it reads no further than to where
      the line cannot go on. */
  lemma LineReadsExactly(line: string, s: Sentence, e: seq<string>)
    requires IsLine(line) && ReadUpTo(s, e) && MadeOf(line, Yield(s) + e)
    ensures UseLine(line) == ReadUse(s.first, s.items, e, Meaning(s))
  {
    TokensExactly(line, Yield(s) + e);
    SentenceReads(s, e, EMPTY);
  }

  lemma {:induction false} SignBehindWords(ts: seq<string>, e: seq<string>)
    requires AllTokens(ts) && e == ts[WordCount(ts)..]
    ensures e == [] || IsSign(e[0])
  {
    WordsCounted(ts);
  }

  lemma {:induction false} FirstCommand(ts: seq<string>, n: nat, items: seq<Item>, e: seq<string>)
    requires n == WordCount(ts) > 0 && AllTokens(ts) && ts[n..] == Tail(items, false) + e
    ensures IsCommand(ts[..n]) && Yield(Sentence(ts[..n], items, false)) + e == ts
  {
    WordsCounted(ts);
    YieldAppends(Sentence(ts[..n], items, false), e);
    assert ts[..n] + ts[n..] == ts;
  }

  lemma {:induction false} SentenceFound(ts: seq<string>) returns (s: Sentence, e: seq<string>)
    requires AllTokens(ts) && ts != [] && !IsSign(ts[0])
    ensures ReadUpTo(s, e) && Yield(s) + e == ts
  {
    var n := WordCount(ts);
    var c := EMPTY.(pgms := [ts[..n]]);
    WordsCounted(ts);
    var items;
    items, e := StopFound(ts[n..], c);
    s := Sentence(ts[..n], items, false);
    FirstApplied(s, c);
    FirstCommand(ts, n, items, e);
    if items == [] {
      SignBehindWords(ts, e);
    }
  }

  /** That covers every line that begins with a word. */
  lemma EveryLineStops(line: string, ts: seq<string>) returns (s: Sentence, e: seq<string>)
    requires IsLine(line) && MadeOf(line, ts) && ts != [] && !IsSign(ts[0])
    ensures ReadUpTo(s, e) && MadeOf(line, Yield(s) + e)
  {
    TokensExactly(line, ts);
    TokensAreTokens(line);
    s, e := SentenceFound(ts);
  }

  /** Of any other line the first token is read, if there is one. */
  lemma NoCommandRead(line: string, ts: seq<string>)
    requires IsLine(line) && MadeOf(line, ts) && (ts == [] || IsSign(ts[0]))
    ensures UseLine(line) == Use(Words(ts[..if ts == [] then 0 else 1]), 1, 1)
  {
    TokensExactly(line, ts);
    FirstWords(ts);
    assert WordCount(ts) == 0 && ts[0..] == ts && "" + TokenText(ts) == TokenText(ts);
  }
}
