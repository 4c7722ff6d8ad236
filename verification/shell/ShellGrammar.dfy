/** The language of the parser: exactly the sentences of a grammar, with their meaning. */
module ShellGrammar {
  import opened ShellSyntax

  /** sentence = cmd item* ['&'], with item = '|' cmd, '<' file or '>' file. */
  datatype Item = Pipe(cmd: seq<string>) | In(file: string) | Out(file: string)

  datatype Sentence = Sentence(first: seq<string>, items: seq<Item>, background: bool)

  function ItemTokens(it: Item): seq<string> {
    match it
    case Pipe(cmd) => ["|"] + cmd
    case In(file) => ["<", file]
    case Out(file) => [">", file]
  }

  function Tail(items: seq<Item>, background: bool): seq<string> {
    if items == [] then if background then ["&"] else []
    else ItemTokens(items[0]) + Tail(items[1..], background)
  }

  function Yield(s: Sentence): seq<string> {
    s.first + Tail(s.items, s.background)
  }

  predicate IsCommand(cmd: seq<string>) {
    cmd != [] && AllWords(cmd)
  }

  predicate Good(it: Item) {
    if it.Pipe? then IsCommand(it.cmd) else IsIdentifier(it.file)
  }

  function Ins(items: seq<Item>): seq<string> {
    if items == [] then [] else (if items[0].In? then [items[0].file] else []) + Ins(items[1..])
  }

  function Outs(items: seq<Item>): seq<string> {
    if items == [] then [] else (if items[0].Out? then [items[0].file] else []) + Outs(items[1..])
  }

  function Piped(items: seq<Item>): seq<seq<string>> {
    if items == [] then [] else (if items[0].Pipe? then [items[0].cmd] else []) + Piped(items[1..])
  }

  predicate AllGood(items: seq<Item>) {
    forall i :: 0 <= i < |items| ==> Good(items[i])
  }

  /** Commands are not empty, files have identifiers for names, and each side is redirected at most
      once. */
  predicate WellFormed(s: Sentence) {
    IsCommand(s.first) && AllGood(s.items) && |Ins(s.items)| <= 1 && |Outs(s.items)| <= 1
  }

  function Reversed<T>(s: seq<T>): seq<T> {
    if s == [] then [] else Reversed(s[1..]) + [s[0]]
  }

  function Only(files: seq<string>): Option<string> {
    if files == [] then None else Some(files[0])
  }

  /** The command of a sentence: its programs last to first. */
  function Meaning(s: Sentence): Cmd {
    Cmd(Reversed([s.first] + Piped(s.items)), Only(Ins(s.items)), Only(Outs(s.items)), s.background)
  }

  // ----- every sentence is accepted with its meaning

  lemma CommandInFront(cmd: seq<string>, rest: seq<string>, c: Cmd)
    requires IsCommand(cmd) && (rest == [] || IsSign(rest[0]))
    ensures ParseCmd(cmd + rest, c) == ParseRest(rest, c.(pgms := [cmd] + c.pgms))
  {
    WordsInFront(cmd, rest);
    assert (cmd + rest)[..|cmd|] == cmd && (cmd + rest)[|cmd|..] == rest;
  }

  lemma TailBegins(items: seq<Item>, background: bool)
    ensures Tail(items, background) == [] || IsSign(Tail(items, background)[0])
  {
    if items != [] {
      assert Tail(items, background)[0] == ItemTokens(items[0])[0];
    }
  }

  // What the items make of a command read so far.
  function Applied(items: seq<Item>, background: bool, c: Cmd): Cmd {
    Cmd(Reversed(Piped(items)) + c.pgms,
        if c.stdin.Some? then c.stdin else Only(Ins(items)),
        if c.stdout.Some? then c.stdout else Only(Outs(items)),
        c.background || background)
  }

  // Each side is redirected at most once, counting what has been read.
  predicate RoomFor(items: seq<Item>, c: Cmd) {
    |Ins(items)| + (if c.stdin.Some? then 1 else 0) <= 1 && |Outs(items)| + (if c.stdout.Some? then 1 else 0) <= 1
  }

  lemma AfterPipe(items: seq<Item>, background: bool, c: Cmd, d: Cmd)
    requires items != [] && items[0].Pipe?
    requires d == c.(pgms := [items[0].cmd] + c.pgms)
    ensures Applied(items[1..], background, d) == Applied(items, background, c)
    ensures RoomFor(items, c) <==> RoomFor(items[1..], d)
  {
    var rest := Piped(items[1..]);
    assert Piped(items) == [items[0].cmd] + rest;
    assert ([items[0].cmd] + rest)[1..] == rest;
    assert Reversed(Piped(items)) == Reversed(rest) + [items[0].cmd];
  }

  lemma AfterIn(items: seq<Item>, background: bool, c: Cmd, d: Cmd)
    requires items != [] && items[0].In? && c.stdin.None?
    requires d == c.(stdin := Some(items[0].file)) && (RoomFor(items, c) || RoomFor(items[1..], d))
    ensures Applied(items[1..], background, d) == Applied(items, background, c)
    ensures RoomFor(items, c) && RoomFor(items[1..], d)
  {
    var rest := items[1..];
    assert Piped(items) == [] + Piped(rest) == Piped(rest);
    assert Ins(items) == [items[0].file] + Ins(rest);
    assert Outs(items) == [] + Outs(rest) == Outs(rest);
  }

  lemma AfterOut(items: seq<Item>, background: bool, c: Cmd, d: Cmd)
    requires items != [] && items[0].Out? && c.stdout.None?
    requires d == c.(stdout := Some(items[0].file)) && (RoomFor(items, c) || RoomFor(items[1..], d))
    ensures Applied(items[1..], background, d) == Applied(items, background, c)
    ensures RoomFor(items, c) && RoomFor(items[1..], d)
  {
    var rest := items[1..];
    assert Piped(items) == [] + Piped(rest) == Piped(rest);
    assert Outs(items) == [items[0].file] + Outs(rest);
    assert Ins(items) == [] + Ins(rest) == Ins(rest);
  }

  lemma PipeRead(cmd: seq<string>, more: seq<string>, c: Cmd)
    requires IsCommand(cmd) && (more == [] || IsSign(more[0]))
    ensures ParseRest(["|"] + cmd + more, c) == ParseRest(more, c.(pgms := [cmd] + c.pgms))
  {
    var ts := ["|"] + cmd + more;
    assert ts[0] == "|" && ts[1..] == cmd + more;
    CommandInFront(cmd, more, c);
  }

  lemma InRead(file: string, more: seq<string>, c: Cmd)
    requires IsIdentifier(file) && c.stdin.None?
    ensures ParseRest(["<", file] + more, c) == ParseRest(more, c.(stdin := Some(file)))
  {
    var ts := ["<", file] + more;
    assert ts[0] == "<" && ts[1] == file && ts[2..] == more;
  }

  lemma OutRead(file: string, more: seq<string>, c: Cmd)
    requires IsIdentifier(file) && c.stdout.None?
    ensures ParseRest([">", file] + more, c) == ParseRest(more, c.(stdout := Some(file)))
  {
    var ts := [">", file] + more;
    assert ts[0] == ">" && ts[1] == file && ts[2..] == more;
  }

  lemma NothingLeft(background: bool, c: Cmd)
    requires !c.background
    ensures ParseRest(Tail([], background), c) == Accepted(Applied([], background, c))
  {
    assert Reversed(Piped([])) + c.pgms == c.pgms;
  }

  // The command after one item.
  function Step(it: Item, c: Cmd): Cmd {
    match it
    case Pipe(cmd) => c.(pgms := [cmd] + c.pgms)
    case In(file) => c.(stdin := Some(file))
    case Out(file) => c.(stdout := Some(file))
  }

  lemma ItemRead(it: Item, more: seq<string>, c: Cmd)
    requires Good(it) && (more == [] || IsSign(more[0]))
    requires (it.In? ==> c.stdin.None?) && (it.Out? ==> c.stdout.None?)
    ensures ParseRest(ItemTokens(it) + more, c) == ParseRest(more, Step(it, c))
  {
    match it
    case Pipe(cmd) => PipeRead(cmd, more, c);
    case In(file) => InRead(file, more, c);
    case Out(file) => OutRead(file, more, c);
  }

  lemma AfterItem(items: seq<Item>, background: bool, c: Cmd)
    requires items != []
    requires (items[0].In? ==> c.stdin.None?) && (items[0].Out? ==> c.stdout.None?)
    requires RoomFor(items, c) || RoomFor(items[1..], Step(items[0], c))
    ensures Applied(items[1..], background, Step(items[0], c)) == Applied(items, background, c)
    ensures RoomFor(items, c) && RoomFor(items[1..], Step(items[0], c))
  {
    match items[0]
    case Pipe(cmd) => AfterPipe(items, background, c, Step(items[0], c));
    case In(file) => AfterIn(items, background, c, Step(items[0], c));
    case Out(file) => AfterOut(items, background, c, Step(items[0], c));
  }

  lemma RoomForFirst(items: seq<Item>, c: Cmd)
    requires items != [] && RoomFor(items, c)
    ensures (items[0].In? ==> c.stdin.None?) && (items[0].Out? ==> c.stdout.None?)
  {
  }

  lemma {:induction false} TailAccepted(items: seq<Item>, background: bool, c: Cmd)
    requires AllGood(items) && RoomFor(items, c) && !c.background
    ensures ParseRest(Tail(items, background), c) == Accepted(Applied(items, background, c))
    decreases |items|
  {
    if items == [] {
      NothingLeft(background, c);
    } else {
      RoomForFirst(items, c);
      AfterItem(items, background, c);
      TailBegins(items[1..], background);
      ItemRead(items[0], Tail(items[1..], background), c);
      TailAccepted(items[1..], background, Step(items[0], c));
    }
  }

  lemma {:induction false} ReversedAppend<T>(a: seq<T>, b: seq<T>)
    ensures Reversed(a + b) == Reversed(b) + Reversed(a)
  {
    if a == [] {
      assert a + b == b;
    } else {
      assert (a + b)[1..] == a[1..] + b;
      ReversedAppend(a[1..], b);
    }
  }

  /** The parser accepts every sentence of the grammar, with its meaning. */
  lemma SentenceAccepted(s: Sentence)
    requires WellFormed(s)
    ensures ParseCmd(Yield(s), EMPTY) == Accepted(Meaning(s))
  {
    var c := EMPTY.(pgms := [s.first]);
    TailBegins(s.items, s.background);
    assert [s.first] + EMPTY.pgms == [s.first];
    CommandInFront(s.first, Tail(s.items, s.background), EMPTY);
    FirstApplied(s, c);
    TailAccepted(s.items, s.background, c);
  }

  // ----- and nothing else

  lemma {:induction false} WordsCounted(ts: seq<string>)
    requires AllTokens(ts)
    ensures AllWords(ts[..WordCount(ts)])
    ensures WordCount(ts) < |ts| ==> IsSign(ts[WordCount(ts)])
  {
    if ts != [] && !IsSign(ts[0]) {
      WordsCounted(ts[1..]);
      assert ts[..WordCount(ts)] == [ts[0]] + ts[1..][..WordCount(ts) - 1];
    }
  }

  /** What the parser accepts behind a command begins with an item, unless it ends. */
  lemma OneItem(ts: seq<string>, c: Cmd, d: Cmd) returns (it: Item, more: seq<string>)
    requires AllTokens(ts) && ParseRest(ts, c) == Accepted(d) && ts != [] && ts[0] != "&"
    ensures Good(it) && ts == ItemTokens(it) + more && AllTokens(more)
    ensures (it.In? ==> c.stdin.None?) && (it.Out? ==> c.stdout.None?)
    ensures ParseRest(more, Step(it, c)) == Accepted(d)
  {
    if ts[0] == "|" {
      var n := WordCount(ts[1..]);
      WordsCounted(ts[1..]);
      it, more := Pipe(ts[1..][..n]), ts[1..][n..];
      assert ts == ["|"] + ts[1..][..n] + ts[1..][n..];
    } else if ts[0] == "<" {
      it, more := In(ts[1]), ts[2..];
    } else {
      it, more := Out(ts[1]), ts[2..];
    }
  }

  lemma {:induction false} TailRead(ts: seq<string>, c: Cmd, d: Cmd) returns (items: seq<Item>, background: bool)
    requires AllTokens(ts) && !c.background && ParseRest(ts, c) == Accepted(d)
    ensures Tail(items, background) == ts && AllGood(items) && RoomFor(items, c)
    ensures d == Applied(items, background, c)
    decreases |ts|
  {
    if ts == [] || ts[0] == "&" {
      items, background := [], ts != [];
      NothingLeft(background, c);
    } else {
      var it, more := OneItem(ts, c, d);
      var rest;
      rest, background := TailRead(more, Step(it, c), d);
      items := [it] + rest;
      assert items[1..] == rest;
      AfterItem(items, background, c);
    }
  }

  lemma SentenceRead(ts: seq<string>, d: Cmd) returns (s: Sentence)
    requires AllTokens(ts) && ParseCmd(ts, EMPTY) == Accepted(d)
    ensures WellFormed(s) && Yield(s) == ts && Meaning(s) == d
  {
    var n := WordCount(ts);
    var c := EMPTY.(pgms := [ts[..n]]);
    WordsCounted(ts);
    assert [ts[..n]] + EMPTY.pgms == [ts[..n]];
    var items, background := TailRead(ts[n..], c, d);
    s := Sentence(ts[..n], items, background);
    FirstApplied(s, c);
    assert ts[..n] + ts[n..] == ts;
  }

  // The meaning of a sentence, from its first command on.
  lemma FirstApplied(s: Sentence, c: Cmd)
    requires c == EMPTY.(pgms := [s.first])
    ensures Applied(s.items, s.background, c) == Meaning(s)
    ensures RoomFor(s.items, c) <==> |Ins(s.items)| <= 1 && |Outs(s.items)| <= 1
  {
    ReversedAppend([s.first], Piped(s.items));
    assert Reversed([s.first]) == [s.first];
  }

  /** A line is accepted exactly when its tokens are a sentence, and the command is its meaning. */
  lemma AcceptedExactly(line: string, d: Cmd)
    requires IsLine(line)
    ensures ParseLine(line) == Accepted(d)
       <==> exists s :: WellFormed(s) && Yield(s) == Tokens(line) && Meaning(s) == d
  {
    TokensAreTokens(line);
    if ParseLine(line) == Accepted(d) {
      var s := SentenceRead(Tokens(line), d);
    }
    forall s | WellFormed(s) && Yield(s) == Tokens(line) && Meaning(s) == d
      ensures ParseLine(line) == Accepted(d)
    {
      SentenceAccepted(s);
    }
  }
}
