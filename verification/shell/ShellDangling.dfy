/** The lines that end behind a redirection sign. */
module ShellDangling {
  import opened ShellSyntax
  import opened ShellGrammar
  import opened ShellLexing

  // What follows the items: nothing, '&', or a redirection sign without a file, for a side not redirected.
  predicate MayEnd(items: seq<Item>, last: seq<string>, c: Cmd) {
    || last == [] || last == ["&"]
    || (last == ["<"] && Ins(items) == [] && c.stdin.None?)
    || (last == [">"] && Outs(items) == [] && c.stdout.None?)
  }

  // One item on, the same holds of the rest.
  lemma {:induction false} MayEndGoesOn(items: seq<Item>, last: seq<string>, c: Cmd)
    requires items != [] && MayEnd(items, last, c)
    ensures MayEnd(items[1..], last, Step(items[0], c))
  {
  }

  lemma {:induction false} MayEndBefore(items: seq<Item>, last: seq<string>, c: Cmd)
    requires items != [] && MayEnd(items[1..], last, Step(items[0], c))
    requires (items[0].In? ==> c.stdin.None?) && (items[0].Out? ==> c.stdout.None?)
    ensures MayEnd(items, last, c)
  {
  }

  lemma {:induction false} TailSplits(items: seq<Item>, last: seq<string>)
    requires items != []
    ensures Tail(items, false) + last == ItemTokens(items[0]) + (Tail(items[1..], false) + last)
  {
  }

  lemma {:induction false} TailSigns(items: seq<Item>, last: seq<string>)
    requires last == [] || IsSign(last[0])
    ensures Tail(items, false) + last == [] || IsSign((Tail(items, false) + last)[0])
  {
    TailBegins(items, false);
    if items == [] {
      assert Tail(items, false) + last == last;
    }
  }

  // ----- which lines dangle

  lemma {:induction false} TailDangles(items: seq<Item>, last: seq<string>, c: Cmd)
    requires AllGood(items) && RoomFor(items, c) && !c.background
    requires MayEnd(items, last, c) && last != [] && last != ["&"]
    ensures ParseRest(Tail(items, false) + last, c) == Dangling(Applied(items, false, c), last[0][0])
    decreases |items|
  {
    if items == [] {
      assert Tail(items, false) + last == last;
      assert Reversed(Piped([])) + c.pgms == c.pgms;
    } else {
      RoomForFirst(items, c);
      AfterItem(items, false, c);
      MayEndGoesOn(items, last, c);
      TailSplits(items, last);
      TailSigns(items[1..], last);
      ItemRead(items[0], Tail(items[1..], false) + last, c);
      TailDangles(items[1..], last, Step(items[0], c));
    }
  }

  lemma {:induction false} OneItemMore(ts: seq<string>, c: Cmd) returns (it: Item, more: seq<string>)
    requires AllTokens(ts) && ParseRest(ts, c).Dangling? && |ts| > 1
    ensures Good(it) && ts == ItemTokens(it) + more && AllTokens(more)
    ensures (it.In? ==> c.stdin.None?) && (it.Out? ==> c.stdout.None?)
    ensures ParseRest(more, Step(it, c)) == ParseRest(ts, c)
  {
    if ts[0] == "|" {
      var n := WordCount(ts[1..]);
      WordsCounted(ts[1..]);
      it, more := Pipe(ts[1..][..n]), ts[1..][n..];
      assert ts == ["|"] + ts[1..][..n] + ts[1..][n..];
    } else if ts[0] == "<" {
      it, more := In(ts[1]), ts[2..];
    } else {
      it, more := Out(ts[1]), ts[2..];
    }
  }

  lemma {:induction false} DanglingRead(ts: seq<string>, c: Cmd, d: Cmd, sign: char) returns (items: seq<Item>)
    requires AllTokens(ts) && !c.background && ParseRest(ts, c) == Dangling(d, sign)
    ensures ts == Tail(items, false) + [[sign]] && AllGood(items) && RoomFor(items, c)
    ensures MayEnd(items, [[sign]], c) && sign in "<>" && d == Applied(items, false, c)
    decreases |ts|
  {
    if |ts| == 1 {
      items := [];
      assert Tail(items, false) + [[sign]] == [[sign]];
      assert Reversed(Piped([])) + c.pgms == c.pgms;
    } else {
      var it, more := OneItemMore(ts, c);
      var rest := DanglingRead(more, Step(it, c), d, sign);
      items := [it] + rest;
      assert items[1..] == rest;
      MayEndBefore(items, [[sign]], c);
      AfterItem(items, false, c);
      TailSplits(items, [[sign]]);
    }
  }

  /** A sentence that is followed by the sign of a redirection that it does not have. */
  predicate Unfinished(s: Sentence, sign: char) {
    WellFormed(s) && !s.background && sign in "<>" && (if sign == '<' then Ins(s.items) else Outs(s.items)) == []
  }

  lemma {:induction false} UnfinishedDangles(s: Sentence, sign: char)
    requires Unfinished(s, sign)
    ensures ParseCmd(Yield(s) + [[sign]], EMPTY) == Dangling(Meaning(s), sign)
  {
    var c := EMPTY.(pgms := [s.first]);
    var tail := Tail(s.items, false) + [[sign]];
    TailSigns(s.items, [[sign]]);
    assert Yield(s) + [[sign]] == s.first + tail && [s.first] + EMPTY.pgms == [s.first];
    CommandInFront(s.first, tail, EMPTY);
    FirstApplied(s, c);
    TailDangles(s.items, [[sign]], c);
  }

  lemma SplitAt(ts: seq<string>, n: nat, tail: seq<string>, last: seq<string>)
    requires n <= |ts| && ts[n..] == tail + last
    ensures ts == ts[..n] + tail + last
  {
  }

  lemma {:induction false} DanglingIsUnfinished(ts: seq<string>, d: Cmd, sign: char) returns (s: Sentence)
    requires AllTokens(ts) && ParseCmd(ts, EMPTY) == Dangling(d, sign)
    ensures Unfinished(s, sign) && ts == Yield(s) + [[sign]] && Meaning(s) == d
  {
    var n := WordCount(ts);
    var c := EMPTY.(pgms := [ts[..n]]);
    WordsCounted(ts);
    assert [ts[..n]] + EMPTY.pgms == [ts[..n]];
    var items := DanglingRead(ts[n..], c, d, sign);
    s := Sentence(ts[..n], items, false);
    FirstApplied(s, c);
    SplitAt(ts, n, Tail(items, false), [[sign]]);
  }

  /** A line leaves its verdict to cbuf exactly when it is a sentence without '&' and the sign of a redirection
      that the sentence does not have. */
  lemma DanglesExactly(line: string, d: Cmd, sign: char)
    requires IsLine(line)
    ensures ParseLine(line) == Dangling(d, sign)
       <==> exists s :: Unfinished(s, sign) && MadeOf(line, Yield(s) + [[sign]]) && Meaning(s) == d
  {
    TokensAreTokens(line);
    if ParseLine(line) == Dangling(d, sign) {
      var s := DanglingIsUnfinished(Tokens(line), d, sign);
      TokensExactly(line, Tokens(line));
    }
    forall s | Unfinished(s, sign) && MadeOf(line, Yield(s) + [[sign]]) && Meaning(s) == d
      ensures ParseLine(line) == Dangling(d, sign)
    {
      TokensExactly(line, Yield(s) + [[sign]]);
      UnfinishedDangles(s, sign);
    }
  }
}
