/** The parser itself: its pools, and the functions that move through them. */
module ShellParser {
  import opened ShellSyntax
  import opened ShellPools
  import opened ShellMemory
  import opened ShellScan

  // The rest of the line from `a`, with its zero.
  function Text(line: string, a: nat): (text: string)
    requires a <= |line|
    ensures |text| == |line| - a + 1
    ensures forall i :: 0 <= i < |text| ==> text[i] == CharAt(line, a + i)
  {
    line[a..] + ['\0']
  }

  lemma UseWordsFirst(ts: seq<string>)
    ensures |TokenText(ts)| <= |UseWords(ts).text| && UseWords(ts).ptrs >= 1
    ensures ts == [] || IsSign(ts[0]) ==> UseWords(ts).text == TokenText(ts)
  {
    if ts != [] && !IsSign(ts[0]) {
      UseOneWord(ts, ts[1..]);
    }
  }

  lemma TailsJoin(a: string, b: string, c: string, p: nat, q: nat)
    requires |a| == |b| == |c| && p <= q <= |a| && a[p..] == c[p..] && b[q..] == a[q..]
    ensures b[q..] == c[q..]
  {
    assert a[p..][q - p..] == a[q..] && c[p..][q - p..] == c[q..];
  }

  lemma IdentifierGoesOn(chars: string, p: nat)
    requires p < |chars| && chars[p] != '\0'
    ensures IsIdentifier(CString(chars, p)) <==> IsIdChar(chars[p]) && IsIdentifier(CString(chars, p + 1))
  {
    var t := CString(chars, p);
    assert t == [chars[p]] + CString(chars, p + 1);
    assert t[0] == chars[p] && t[1..] == CString(chars, p + 1);
    assert forall i :: 1 <= i < |t| ==> t[i] == t[1..][i - 1];
  }

  lemma RoomLeft(m: Memory, chars: string, ws: seq<string>, us: seq<string>, ptrs: int, ts: seq<string>)
    requires Reading(ws, us, m.chars, chars, ptrs, ts)
    ensures |chars| + |UseWords(us).text| == |m.chars| + |UseWords(ts).text|
  {
    assert |chars + UseWords(us).text| == |m.chars + UseWords(ts).text|;
  }

  /** Where parse goes after a token. */
  datatype Jump = ToNewCmd | ToNewToken | Return(r: int)

  predicate Refused(g: Goal, used: Use) {
    g.outcome == Rejected && g.use == used
  }

  // Each branch of the switch, as far as it does not touch memory.
  predicate Branches(g: Goal, used: Use, ts: seq<string>, cur: Cmd)
    requires ts != []
  {
    && (ts[0] == "|" ==> AtCmd(g, used, ts[1..], cur))
    && (ts[0] == "&" ==>
         && |used.text| + |TokenText(ts[1..])| <= CBUF_SIZE && g.use == used.Plus(Chars(TokenText(ts[1..])))
         && g.outcome == if ts[1..] == [] then Accepted(cur.(background := true)) else Rejected)
    && (ts[0] == "<" ==> if cur.stdin == None then AtFile(g, used, ts[1..], true, cur) else Refused(g, used))
    && (ts[0] == ">" ==> if cur.stdout == None then AtFile(g, used, ts[1..], false, cur) else Refused(g, used))
    && (!IsSign(ts[0]) ==> Refused(g, used))
  }

  lemma TokenUse(line: string, t: nat, g: Goal, used: Use, ts: seq<string>, cur: Cmd)
    requires Left(line, t, ts) && AtToken(g, used, ts, cur)
    ensures |used.text| + |TokenText(ts)| <= CBUF_SIZE
    ensures ts == [] ==> g.outcome == Accepted(cur) && g.use == used.Plus(Chars(TokenText(ts)))
    ensures ts != [] ==> IsToken(ts[0])
    ensures ts != [] ==> Branches(g, used.Plus(Chars(TokenText(ts))), ts, cur)
  {
    LeftAreTokens(line, t, ts);
    TokenNext(g, used, ts, cur);
    if ts != [] {
      if ts[0] == "|" {
        PipeNext(g, used, ts, cur);
      } else if ts[0] == "&" {
        BackgroundNext(g, used, ts, cur);
      } else if ts[0] == "<" || ts[0] == ">" {
        RedirectionNext(g, used, ts, ts[0] == "<", cur);
      }
    }
  }

  class Parser {
    const cbuf: array<char>
    var cp: nat
    const pbuf: array<int>
    var pp: nat
    const cmdbuf: array<Cell>
    var cmds: int

    ghost function Taken(): nat
      reads this
    {
      if cmds < 0 then CMDBUF_SIZE else cmds
    }

    // The cells from `cmds` on are linked in order; cbuf ends with a zero.
    ghost predicate Valid()
      reads this, cbuf, cmdbuf
    {
      && cbuf.Length == CBUF_SIZE && pbuf.Length == PBUF_SIZE && cmdbuf.Length == CMDBUF_SIZE
      && cp <= CBUF_SIZE && pp <= PBUF_SIZE && -1 <= cmds < CMDBUF_SIZE
      && cbuf[CBUF_SIZE - 1] == '\0'
      && forall i :: Taken() <= i < CMDBUF_SIZE ==> cmdbuf[i].next == if i == CMDBUF_SIZE - 1 then -1 else i + 1
    }

    ghost function Used(): Use
      requires Valid()
      reads this, cbuf, cmdbuf
    {
      Use(cbuf[..cp], pp, Taken())
    }

    /** What is in use. */
    ghost function Mem(): Memory
      requires Valid()
      reads this, cbuf, pbuf, cmdbuf
    {
      Memory(cbuf[..cp], pbuf[..pp], cmdbuf[..Taken()])
    }

    constructor ()
      ensures Valid() && fresh(cbuf) && fresh(pbuf) && fresh(cmdbuf)
    {
      cbuf := new char[CBUF_SIZE](_ => '\0');
      pbuf := new int[PBUF_SIZE](_ => -1);
      cmdbuf := new Cell[CMDBUF_SIZE](_ => Cell(-1, -1));
      cp, pp, cmds := 0, 0, -1;
    }

    method Init()
      requires Valid()
      modifies this, cmdbuf
      ensures Valid() && cp == 0 && pp == 0 && cmds == 0
    {
      for i := 0 to CMDBUF_SIZE - 1
        invariant forall j :: 0 <= j < i ==> cmdbuf[j].next == j + 1
      {
        cmdbuf[i] := cmdbuf[i].(next := i + 1);
      }
      cmdbuf[CMDBUF_SIZE - 1] := cmdbuf[CMDBUF_SIZE - 1].(next := -1);
      cmds := 0;
      cp := 0;
      pp := 0;
    }

    // The first loop of nexttoken: `a` is behind the blanks.
    method SkipBlanks(line: string, s: nat) returns (a: nat)
      requires IsLine(line) && s <= |line|
      ensures a == Skip(line, s)
    {
      a := s;
      while IsSpace(CharAt(line, a))
        invariant s <= a <= |line| && Skip(line, s) == Skip(line, a)
        decreases |line| - a
      {
        a := a + 1;
      }
    }

    method Put(c: char)
      requires cp < cbuf.Length
      modifies this`cp, cbuf
      ensures cp == old(cp) + 1 && cbuf[..] == old(cbuf[..])[old(cp) := c]
    {
      cbuf[cp] := c;
      cp := cp + 1;
    }

    // The copying loop of nexttoken; it copies one character too many, and takes it back.
    method CopyWord(line: string, a: nat, ghost text: string) returns (i: nat)
      requires cbuf.Length == CBUF_SIZE && a < |line| && IsWordChar(line[a]) && text == Text(line, a)
      requires cp + (WordEnd(line, a) - a) < CBUF_SIZE
      modifies this`cp, cbuf
      ensures i == WordEnd(line, a) && cp == old(cp) + (i - a) + 1
      ensures cbuf[..] == Written(old(cbuf[..]), old(cp), text, i - a)[old(cp) + (i - a) := '\0']
    {
      ghost var p, before := cp, cbuf[..];
      Put(line[a]);
      assert cbuf[..] == Written(before, p, text, 1);
      i := a + 1;
      var c := CharAt(line, i);
      Put(c);
      i := i + 1;
      while IsWordChar(c)
        invariant a + 1 < i <= |line| + 1 && cp == p + (i - a) && c == CharAt(line, i - 1)
        invariant WordEnd(line, a) == WordEnd(line, i - 1)
        invariant cbuf[..] == Written(before, p, text, i - a)
        decreases |line| + 1 - i
      {
        c := CharAt(line, i);
        Put(c);
        i := i + 1;
      }
      i := i - 1;
      cp := cp - 1;
      Put('\0');
    }

    // The copying of the token that begins at `a`.
    method CopyChars(line: string, a: nat, ghost text: string) returns (i: nat)
      requires cbuf.Length == CBUF_SIZE && IsLine(line) && a < |line| && !IsSpace(line[a]) && text == Text(line, a)
      requires cp + (TokenEnd(line, a) - a) < CBUF_SIZE
      modifies this`cp, cbuf
      ensures i == TokenEnd(line, a) && cp == old(cp) + (i - a) + 1
      ensures cbuf[..] == Written(old(cbuf[..]), old(cp), text, i - a)[old(cp) + (i - a) := '\0']
    {
      var c := CharAt(line, a);
      if IsSpec(c) {
        ghost var before, p := cbuf[..], cp;
        Put(c);
        assert cbuf[..] == Written(before, p, text, 1);
        Put('\0');
        i := a + 1;
      } else {
        i := CopyWord(line, a, text);
      }
    }

    method CopyToken(line: string, a: nat, ghost t: string) returns (i: nat)
      requires Valid() && IsLine(line) && a < |line| && !IsSpace(line[a])
      requires t == line[a..TokenEnd(line, a)] && cp + |t| < CBUF_SIZE
      modifies this`cp, cbuf
      ensures Valid() && i == TokenEnd(line, a) && cp == old(cp) + |t| + 1 && HasString(cbuf[..cp], old(cp), t)
      ensures cbuf[..cp] == old(cbuf[..cp]) + t + ['\0'] && cbuf[cp..] == old(cbuf[..])[cp..]
    {
      ghost var before, p, text := cbuf[..], cp, Text(line, a);
      i := CopyChars(line, a, text);
      assert t <= text;
      TokenWritten(before, cbuf[..], p, text, t);
      assert cbuf[CBUF_SIZE - 1] == cbuf[..][CBUF_SIZE - 1];
    }

    /** nexttoken: reads the first of the tokens `ts` of what is left of the line into cbuf; `n` is what
        it takes of the line, or 0 at its end. */
    method NextToken(line: string, s: nat, ghost ts: seq<string>) returns (n: nat, tok: nat)
      requires Valid() && Left(line, s, ts) && cp + |TokenText(ts)| <= CBUF_SIZE
      modifies this`cp, cbuf
      ensures Valid() && tok == old(cp) && cbuf[..cp] == old(cbuf[..cp]) + TokenText(ts)
      ensures n == 0 <==> ts == []
      ensures ts == [] ==> cbuf[..] == old(cbuf[..])
      ensures ts != [] ==>
        && IsToken(ts[0]) && Left(line, s + n, ts[1..]) && HasString(cbuf[..cp], tok, ts[0])
        && cbuf[tok] == ts[0][0] && (IsSpec(cbuf[tok]) <==> IsSign(ts[0]))
      ensures cbuf[cp..] == old(cbuf[..])[cp..]
    {
      tok := cp;
      var a := SkipBlanks(line, s);
      TokenAhead(line, s, a, ts);
      var c := CharAt(line, a);
      if c == '\0' {
        return 0, tok;
      }
      var i := CopyToken(line, a, ts[0]);
      n := i - s;
      StringBegins(cbuf[..cp], tok, ts[0]);
      Regroup(old(cbuf[..cp]), ts[0], ['\0']);
    }

    // The head of acmd: a cell from the free list.
    method TakeCell() returns (cmd0: nat)
      requires Valid() && cmds >= 0
      modifies this`cmds, cmdbuf
      ensures Valid() && cmd0 == old(cmds) && Taken() == cmd0 + 1
      ensures cmdbuf[cmd0] == Cell(-1, pp) && cmdbuf[..cmd0] == old(cmdbuf[..cmd0])
    {
      cmd0 := cmds;
      cmds := cmdbuf[cmds].next;
      cmdbuf[cmd0] := Cell(-1, pp);
    }

    // A pointer behind the others.
    method PutPointer(p: int, ghost m: Memory)
      requires Valid() && pp < PBUF_SIZE && m.chars <= cbuf[..cp] && m.ptrs == pbuf[..pp] && m.cells == cmdbuf[..Taken()]
      modifies this`pp, pbuf
      ensures Valid() && pp == old(pp) + 1 && Extends(m, Mem()) && Mem().ptrs == m.ptrs + [p]
    {
      pbuf[pp] := p;
      pp := pp + 1;
    }

    // One turn of acmd's loop.
    method ReadWord(line: string, s: nat, ghost ts: seq<string>, ghost q: nat, ghost ws: seq<string>)
      returns (n: nat, more: bool)
      requires Valid() && Left(line, s, ts) && PartWords(Mem(), q, ws)
      requires cp + |UseWords(ts).text| <= CBUF_SIZE && pp + UseWords(ts).ptrs <= PBUF_SIZE
      modifies this`cp, this`pp, cbuf, pbuf
      ensures Valid() && Extends(old(Mem()), Mem()) && pp == old(pp) + 1 && cbuf[cp..] == old(cbuf[..])[cp..]
      ensures more <==> ts != [] && !IsSign(ts[0])
      ensures more ==> n > 0 && Left(line, s + n, ts[1..]) && PartWords(Mem(), q, ws + [ts[0]])
      ensures cbuf[..cp] == old(cbuf[..cp]) + TokenText(ts)
      ensures !more ==> HasWords(Mem(), q, ws)
    {
      ghost var m := Mem();
      var tok;
      UseWordsFirst(ts);
      n, tok := NextToken(line, s, ts);
      if n == 0 || IsSpec(cbuf[tok]) {
        PutPointer(-1, m);
        more := false;
        PartEnds(m, Mem(), q, ws);
      } else {
        PutPointer(tok, m);
        more := true;
        PartGrows(m, Mem(), q, ws, tok, ts[0]);
      }
    }

    // Inside acmd's loop: `m` and `tail` are the pools before it, `ws` have been read, `us` are left.
    ghost predicate Gathered(line: string, s: nat, m: Memory, tail: string,
                             ts: seq<string>, ws: seq<string>, us: seq<string>, more: bool)
      reads this, cbuf, pbuf, cmdbuf
    {
      && Valid() && Extends(m, Mem()) && |tail| == CBUF_SIZE && cbuf[cp..] == tail[cp..]
      && Left(line, s, us)
      && if more then
           PartWords(Mem(), |m.ptrs|, ws) && Reading(ws, us, m.chars, cbuf[..cp], pp - |m.ptrs|, ts)
         else
           && HasWords(Mem(), |m.ptrs|, ws) && ws == ts[..WordCount(ts)] && us == ts[WordCount(ts)..]
           && cbuf[..cp] == m.chars + UseWords(ts).text && pp == |m.ptrs| + UseWords(ts).ptrs
    }

    // One turn of acmd's loop.
    method Gather(line: string, s: nat, ghost m: Memory, ghost tail: string,
                  ghost ts: seq<string>, ghost ws: seq<string>, ghost us: seq<string>)
      returns (n: nat, more: bool)
      requires Gathered(line, s, m, tail, ts, ws, us, true)
      requires |m.chars| + |UseWords(ts).text| <= CBUF_SIZE && |m.ptrs| + UseWords(ts).ptrs <= PBUF_SIZE
      modifies this`cp, this`pp, cbuf, pbuf
      ensures more ==> us != [] && n > 0 && Gathered(line, s + n, m, tail, ts, ws + [us[0]], us[1..], true)
      ensures !more ==> Gathered(line, s, m, tail, ts, ws, us, false)
    {
      ghost var before, ptrs := Mem(), pp - |m.ptrs|;
      UseWordsFirst(us);
      RoomLeft(m, before.chars, ws, us, ptrs, ts);
      n, more := ReadWord(line, s, us, |m.ptrs|, ws);
      ExtendsTransitive(m, before, Mem());
      TailsJoin(old(cbuf[..]), cbuf[..], tail, old(cp), cp);
      if more {
        ReadingGoesOn(ws, us, m.chars, before.chars, cbuf[..cp], ptrs, ts);
      } else {
        ReadingEnds(ws, us, m.chars, before.chars, ptrs, ts);
      }
    }

    // acmd's loop.
    method ReadWords(line: string, s: nat, ghost m: Memory, ghost tail: string, ghost ts: seq<string>)
      returns (cnt: nat, ghost ws: seq<string>, ghost us: seq<string>)
      requires Gathered(line, s, m, tail, ts, [], ts, true)
      requires |m.chars| + |UseWords(ts).text| <= CBUF_SIZE && |m.ptrs| + UseWords(ts).ptrs <= PBUF_SIZE
      modifies this`cp, this`pp, cbuf, pbuf
      ensures Gathered(line, s + cnt, m, tail, ts, ws, us, false) && (cnt == 0 <==> ws == [])
    {
      cnt, ws, us := 0, [], ts;
      var more := true;
      while more
        invariant Gathered(line, s + cnt, m, tail, ts, ws, us, more) && (cnt == 0 <==> ws == [])
        decreases |us|, more
      {
        var n;
        n, more := Gather(line, s + cnt, m, tail, ts, ws, us);
        if more {
          cnt := cnt + n;
          ws, us := ws + [us[0]], us[1..];
        }
      }
    }

    /** acmd: reads the words in front of the next sign, or of the end, into a new cell. */
    method Acmd(line: string, s: nat, ghost tail: string, ghost ts: seq<string>) returns (cnt: nat, cmd0: nat)
      requires Valid() && Left(line, s, ts) && tail == cbuf[..] && cmds >= 0
      requires cp + |UseWords(ts).text| <= CBUF_SIZE && pp + UseWords(ts).ptrs <= PBUF_SIZE
      modifies this, cbuf, pbuf, cmdbuf
      ensures Valid() && Left(line, s + cnt, ts[WordCount(ts)..]) && (cnt == 0 <==> WordCount(ts) == 0)
      ensures cmd0 == old(cmds) && Used() == old(Used()).Plus(UseWords(ts)) && cbuf[cp..] == tail[cp..]
      ensures Extends(old(Mem()), Mem()) && cmdbuf[cmd0].next == -1
      ensures HasWords(Mem(), cmdbuf[cmd0].pgmlist, ts[..WordCount(ts)])
    {
      cmd0 := TakeCell();
      ghost var m := Mem();
      GatheringBegins(line, s, m, tail, ts);
      ghost var ws, us;
      cnt, ws, us := ReadWords(line, s, m, tail, ts);
      GatheringEnds(line, s + cnt, m, tail, ts, ws, us);
      ExtendsTransitive(old(Mem()), m, Mem());
      assert cmdbuf[cmd0].pgmlist == |m.ptrs|;
    }

    lemma GatheringBegins(line: string, s: nat, m: Memory, tail: string, ts: seq<string>)
      requires Valid() && Left(line, s, ts) && tail == cbuf[..] && m == Mem()
      ensures Gathered(line, s, m, tail, ts, [], ts, true)
    {
      ReadingBegins(ts, m.chars);
    }

    lemma GatheringEnds(line: string, s: nat, m: Memory, tail: string, ts: seq<string>, ws: seq<string>, us: seq<string>)
      requires Gathered(line, s, m, tail, ts, ws, us, false)
      ensures Valid() && Left(line, s, ts[WordCount(ts)..]) && HasWords(Mem(), |m.ptrs|, ts[..WordCount(ts)])
      ensures ws == ts[..WordCount(ts)] && Extends(m, Mem()) && cbuf[cp..] == tail[cp..]
      ensures Used() == Use(m.chars + UseWords(ts).text, |m.ptrs| + UseWords(ts).ptrs, Taken())
    {
    }

    /** isidentifier, on the string at `p`. */
    method CheckIdentifier(p: nat) returns (ok: bool)
      requires Valid() && p < CBUF_SIZE
      ensures ok <==> IsIdentifier(CString(cbuf[..], p))
    {
      var s := p;
      while cbuf[s] != '\0'
        invariant p <= s < CBUF_SIZE
        invariant IsIdentifier(CString(cbuf[..], p)) <==> IsIdentifier(CString(cbuf[..], s))
        decreases CBUF_SIZE - s
      {
        IdentifierGoesOn(cbuf[..], s);
        if !IsIdChar(cbuf[s]) {
          return false;
        }
        s := s + 1;
      }
      return true;
    }

    ghost function Whole(): Memory
      reads this, cbuf, pbuf, cmdbuf
    {
      Memory(cbuf[..], pbuf[..], cmdbuf[..])
    }

    ghost predicate AtNewCmd(line: string, t: nat, c: Command, g: Goal, ts: seq<string>, cur: Cmd)
      reads this, cbuf, pbuf, cmdbuf, c
    {
      && Valid() && Left(line, t, ts) && c.Shows(Mem(), cur)
      && AtCmd(g, Used(), ts, cur) && cbuf[cp..] == g.before[cp..]
    }

    ghost predicate AtNewToken(line: string, t: nat, c: Command, g: Goal, ts: seq<string>, cur: Cmd)
      reads this, cbuf, pbuf, cmdbuf, c
    {
      && Valid() && Left(line, t, ts) && c.Shows(Mem(), cur)
      && AtToken(g, Used(), ts, cur) && cbuf[cp..] == g.before[cp..]
    }

    // All that was to be written to cbuf has been, over what was there before.
    ghost predicate Filled(g: Goal)
      requires Valid() && |g.before| == CBUF_SIZE
      reads this, cbuf, cmdbuf
    {
      cbuf[..cp] == g.use.text && cbuf[cp..] == g.before[cp..]
    }

    /** What parse returns. A redirection sign at the end of the line takes for its file the string that
        an earlier line has left in cbuf. */
    ghost predicate Returns(c: Command, g: Goal, r: int)
      reads this, cbuf, pbuf, cmdbuf, c
    {
      Valid() && Sound(g) && Filled(g) &&
      match g.outcome
      case Accepted(d) => r == 1 && c.Shows(Whole(), d)
      case Rejected => r == -1
      case Dangling(d, sign) =>
        var stale := CString(g.before, |g.use.text|);
        if IsIdentifier(stale) then r == 1 && c.Shows(Whole(), WithFile(stale, sign == '<', d)) else r == -1
    }

    // From the label newcmd to newtoken.
    method NewCmd(line: string, t: nat, c: Command, ghost g: Goal, ghost ts: seq<string>, ghost cur: Cmd)
      returns (n: nat, ghost ts': seq<string>, ghost cur': Cmd)
      requires AtNewCmd(line, t, c, g, ts, cur)
      modifies this, cbuf, pbuf, cmdbuf, c
      ensures n == 0 ==> Returns(c, g, -1)
      ensures n > 0 ==> AtNewToken(line, t + n, c, g, ts', cur') && |ts'| < |ts|
      ensures |ts'| <= |ts|
    {
      CmdBegins(g, Used(), ts, cur);
      ghost var m, tail := Mem(), cbuf[..];
      ts', cur' := ts[WordCount(ts)..], cur.(pgms := [ts[..WordCount(ts)]] + cur.pgms);
      var cmd0;
      n, cmd0 := Acmd(line, t, tail, ts);
      TailsJoin(tail, cbuf[..], g.before, old(cp), cp);
      if n == 0 {
        return;
      }
      Link(c, cmd0, m, ts[..WordCount(ts)], cur);
    }

    // The new cell becomes the head of the list.
    method Link(c: Command, cmd0: nat, ghost m: Memory, ghost words: seq<string>, ghost cur: Cmd)
      requires Valid() && |m.cells| == cmd0 < Taken() && Extends(m, Mem()) && c.Shows(m, cur)
      requires HasWords(Mem(), cmdbuf[cmd0].pgmlist, words)
      modifies cmdbuf, c`pgm
      ensures Valid() && c.Shows(Mem(), cur.(pgms := [words] + cur.pgms))
    {
      ghost var m' := Mem();
      cmdbuf[cmd0] := cmdbuf[cmd0].(next := c.pgm);
      assert Extends(m, Mem());
      ShowsKept(c, m, Mem(), cur);
      assert HasWords(Mem(), cmdbuf[cmd0].pgmlist, words) by {
        assert HasWords(m', cmdbuf[cmd0].pgmlist, words);
      }
      ListGrows(Mem(), cmd0, words, cur.pgms);
      c.pgm := cmd0;
    }

    // The branch for '&'.
    method Background(line: string, t: nat, c: Command, ghost g: Goal, ghost ts: seq<string>, ghost cur: Cmd)
      returns (r: int)
      requires Valid() && Left(line, t, ts) && c.Shows(Mem(), cur) && Sound(g) && cp + |TokenText(ts)| <= CBUF_SIZE
      requires g.outcome == if ts == [] then Accepted(cur.(background := true)) else Rejected
      requires g.use == Used().Plus(Chars(TokenText(ts))) && cbuf[cp..] == g.before[cp..]
      modifies this`cp, cbuf, c`background
      ensures Returns(c, g, r)
    {
      ghost var m := Mem();
      var n, tok := NextToken(line, t, ts);
      TailsJoin(old(cbuf[..]), cbuf[..], g.before, old(cp), cp);
      if n == 0 {
        ShowsKept(c, m, Whole(), cur);
        c.background := true;
        return 1;
      }
      return -1;
    }

    // A file has been stored: a token of the line, or, at the end of it, what cbuf holds there.
    ghost predicate FileStored(line: string, t: nat, c: Command, stdin: bool, g: Goal, ts: seq<string>, cur: Cmd)
      reads this, cbuf, pbuf, cmdbuf, c
    {
      var p := if stdin then c.rstdin else c.rstdout;
      && Valid() && Sound(g) && 0 <= p < CBUF_SIZE
      && (ts == [] || !IsIdentifier(ts[0]) ==> Filled(g))
      && if ts == [] then
           && CString(cbuf[..], p) == CString(g.before, |g.use.text|)
           && c.Shows(Whole(), WithFile(CString(g.before, |g.use.text|), stdin, cur))
         else
           && CString(cbuf[..], p) == ts[0]
           && (IsIdentifier(ts[0]) ==> AtNewToken(line, t, c, g, ts[1..], WithFile(ts[0], stdin, cur)))
    }

    // The call of nexttoken behind a redirection sign.
    method StoreFile(line: string, t: nat, c: Command, stdin: bool, ghost ts: seq<string>) returns (n: nat)
      requires Valid() && Left(line, t, ts) && cp + |TokenText(ts)| <= CBUF_SIZE
      modifies this`cp, cbuf, c`rstdin, c`rstdout
      ensures Valid() && (n == 0 <==> ts == []) && cbuf[..cp] == old(cbuf[..cp]) + TokenText(ts)
      ensures Extends(old(Mem()), Mem()) && cbuf[cp..] == old(cbuf[..])[cp..]
      ensures ts != [] ==> IsToken(ts[0]) && Left(line, t + n, ts[1..]) && HasString(cbuf[..cp], old(cp), ts[0])
      ensures c.rstdin == if stdin then old(cp) else old(c.rstdin)
      ensures c.rstdout == if stdin then old(c.rstdout) else old(cp)
    {
      var file;
      n, file := NextToken(line, t, ts);
      if stdin {
        c.rstdin := file;
      } else {
        c.rstdout := file;
      }
    }

    lemma FreshIsStored(line: string, t: nat, c: Command, stdin: bool, g: Goal, ts: seq<string>, cur: Cmd)
      requires Valid() && Sound(g) && ts != [] && IsToken(ts[0]) && Left(line, t, ts[1..]) && cbuf[cp..] == g.before[cp..]
      requires IsIdentifier(ts[0]) ==> AtToken(g, Used(), ts[1..], WithFile(ts[0], stdin, cur))
      requires !IsIdentifier(ts[0]) ==> g.use == Used()
      requires var p := if stdin then c.rstdin else c.rstdout;
        0 <= p < CBUF_SIZE && CString(cbuf[..], p) == ts[0]
      requires c.Shows(Mem(), WithFile(ts[0], stdin, cur))
      ensures FileStored(line, t, c, stdin, g, ts, cur)
    {
      if !IsIdentifier(ts[0]) {
        assert Filled(g);
      }
    }

    lemma FileIsStored(line: string, t: nat, c: Command, stdin: bool, m: Memory, used: Use, g: Goal,
                       ts: seq<string>, cur: Cmd)
      requires Valid() && AtFile(g, used, ts, stdin, cur) && Used() == used.Plus(Chars(TokenText(ts)))
      requires cbuf[cp..] == g.before[cp..] && Extends(m, Mem()) && m.chars == used.text
      requires HasList(m, c.pgm, cur.pgms) && c.rstderr == -1 && c.background == cur.background
      requires if stdin then HasFile(m.chars, c.rstdout, cur.stdout) && c.rstdin == |used.text|
               else HasFile(m.chars, c.rstdin, cur.stdin) && c.rstdout == |used.text|
      requires ts != [] ==> IsToken(ts[0]) && Left(line, t, ts[1..]) && HasString(cbuf[..cp], |used.text|, ts[0])
      ensures FileStored(line, t, c, stdin, g, ts, cur)
    {
      FileNext(g, used, ts, stdin, cur);
      if ts == [] {
        assert Filled(g) && cp == |used.text|;
        StaleString(c, stdin, m, g, cur);
      } else {
        FreshString(c, stdin, m, ts[0], cur);
        FreshIsStored(line, t, c, stdin, g, ts, cur);
      }
    }

    method TakeFile(line: string, t: nat, c: Command, stdin: bool, ghost g: Goal, ghost ts: seq<string>, ghost cur: Cmd)
      returns (n: nat)
      requires Valid() && Left(line, t, ts) && c.Shows(Mem(), cur)
      requires AtFile(g, Used(), ts, stdin, cur) && cbuf[cp..] == g.before[cp..]
      modifies this`cp, cbuf, c`rstdin, c`rstdout
      ensures FileStored(line, t + n, c, stdin, g, ts, cur) && (n == 0 <==> ts == [])
    {
      FileNext(g, Used(), ts, stdin, cur);
      n := StoreFile(line, t, c, stdin, ts);
      TailsJoin(old(cbuf[..]), cbuf[..], g.before, old(cp), cp);
      FileIsStored(line, t + n, c, stdin, old(Mem()), old(Used()), g, ts, cur);
    }

    // The branches for '<' and '>'.
    method Redirect(line: string, t: nat, c: Command, stdin: bool, ghost g: Goal, ghost ts: seq<string>, ghost cur: Cmd)
      returns (ok: bool, n: nat)
      requires Valid() && Left(line, t, ts) && c.Shows(Mem(), cur) && Sound(g) && cbuf[cp..] == g.before[cp..]
      requires if SideOf(stdin, cur) == None then AtFile(g, Used(), ts, stdin, cur) else Refused(g, Used())
      modifies this`cp, cbuf, c
      ensures !ok ==> Returns(c, g, -1)
      ensures ok && ts == [] ==> n == 0 && Returns(c, g, 1)
      ensures ok && ts != [] ==> n > 0 && AtNewToken(line, t + n, c, g, ts[1..], WithFile(ts[0], stdin, cur))
    {
      if (if stdin then c.rstdin else c.rstdout) != -1 {
        return false, 0;
      }
      n := TakeFile(line, t, c, stdin, g, ts, cur);
      ok := CheckIdentifier(if stdin then c.rstdin else c.rstdout);
    }

    // A file whose name is left over.
    lemma StaleString(c: Command, stdin: bool, m: Memory, g: Goal, cur: Cmd)
      requires Valid() && Sound(g) && cp < CBUF_SIZE && cbuf[cp..] == g.before[cp..] && Extends(m, Whole())
      requires HasList(m, c.pgm, cur.pgms) && c.rstderr == -1 && c.background == cur.background
      requires if stdin then HasFile(m.chars, c.rstdout, cur.stdout) && c.rstdin == cp
               else HasFile(m.chars, c.rstdin, cur.stdin) && c.rstdout == cp
      ensures CString(cbuf[..], cp) == CString(g.before, cp)
      ensures c.Shows(Whole(), WithFile(CString(g.before, cp), stdin, cur))
    {
      SameTail(cbuf[..], g.before, cp);
      StringThere(cbuf[..], cp);
      ListKept(m, Whole(), c.pgm, cur.pgms);
      if stdin {
        FileKept(m, Whole(), c.rstdout, cur.stdout);
      } else {
        FileKept(m, Whole(), c.rstdin, cur.stdin);
      }
    }

    // A file whose name has just been read.
    lemma FreshString(c: Command, stdin: bool, m: Memory, t: string, cur: Cmd)
      requires Valid() && IsLine(t) && Extends(m, Mem())
      requires HasList(m, c.pgm, cur.pgms) && c.rstderr == -1 && c.background == cur.background
      requires if stdin then HasFile(m.chars, c.rstdout, cur.stdout) && HasString(cbuf[..cp], c.rstdin, t)
               else HasFile(m.chars, c.rstdin, cur.stdin) && HasString(cbuf[..cp], c.rstdout, t)
      ensures var p := if stdin then c.rstdin else c.rstdout;
        0 <= p < CBUF_SIZE && CString(cbuf[..], p) == t
      ensures c.Shows(Mem(), WithFile(t, stdin, cur))
    {
      var p := if stdin then c.rstdin else c.rstdout;
      StringKept(Mem(), Whole(), p, t);
      ReadString(cbuf[..], p, t);
      ListKept(m, Mem(), c.pgm, cur.pgms);
      if stdin {
        FileKept(m, Mem(), c.rstdout, cur.stdout);
      } else {
        FileKept(m, Mem(), c.rstdin, cur.stdin);
      }
    }

    // What the token read at newtoken leaves to be done.
    ghost predicate AfterToken(line: string, t: nat, c: Command, g: Goal, ts: seq<string>, cur: Cmd)
      reads this, cbuf, pbuf, cmdbuf, c
    {
      && ts != [] && IsToken(ts[0]) && Valid() && Left(line, t, ts[1..]) && c.Shows(Mem(), cur) && Sound(g)
      && cbuf[cp..] == g.before[cp..]
      && Branches(g, Used(), ts, cur)
    }

    // The call of nexttoken at newtoken.
    method FirstToken(line: string, t: nat, c: Command, ghost g: Goal, ghost ts: seq<string>, ghost cur: Cmd)
      returns (n: nat, tok: nat)
      requires AtNewToken(line, t, c, g, ts, cur)
      modifies this`cp, cbuf
      ensures n == 0 ==> Returns(c, g, 1)
      ensures n > 0 ==> AfterToken(line, t + n, c, g, ts, cur) && tok < CBUF_SIZE && cbuf[tok] == ts[0][0]
    {
      TokenUse(line, t, g, Used(), ts, cur);
      n, tok := NextToken(line, t, ts);
      TailsJoin(old(cbuf[..]), cbuf[..], g.before, old(cp), cp);
      TokenIsRead(line, t + n, c, old(Mem()), old(Used()), g, ts, cur);
    }

    lemma TokenIsRead(line: string, t: nat, c: Command, m: Memory, used: Use, g: Goal, ts: seq<string>, cur: Cmd)
      requires Valid() && Sound(g) && Used() == used.Plus(Chars(TokenText(ts)))
      requires cbuf[cp..] == g.before[cp..] && Extends(m, Mem()) && c.Shows(m, cur)
      requires ts == [] ==> g.outcome == Accepted(cur) && g.use == Used()
      requires ts != [] ==> Left(line, t, ts[1..]) && IsToken(ts[0]) && Branches(g, Used(), ts, cur)
      ensures ts == [] ==> Returns(c, g, 1)
      ensures ts != [] ==> AfterToken(line, t, c, g, ts, cur)
    {
      if ts == [] {
        ShowsKept(c, m, Whole(), cur);
      } else {
        ShowsKept(c, m, Mem(), cur);
      }
    }

    // From the label newtoken to the next goto or return; `cur'` and `ts'` are what holds there.
    method NewToken(line: string, t: nat, c: Command, ghost g: Goal, ghost ts: seq<string>, ghost cur: Cmd)
      returns (jump: Jump, n: nat, ghost ts': seq<string>, ghost cur': Cmd)
      requires AtNewToken(line, t, c, g, ts, cur)
      modifies this`cp, cbuf, c
      ensures jump.ToNewCmd? ==> AtNewCmd(line, t + n, c, g, ts', cur') && |ts'| < |ts|
      ensures jump.ToNewToken? ==> AtNewToken(line, t + n, c, g, ts', cur') && |ts'| < |ts|
      ensures jump.Return? ==> Returns(c, g, jump.r)
      ensures |ts'| <= |ts|
    {
      ts', cur' := ts, cur;
      var tok;
      n, tok := FirstToken(line, t, c, g, ts, cur);
      if n == 0 {
        return Return(1), n, ts, cur;
      }
      var m;
      jump, m, ts', cur' := Switch(cbuf[tok], line, t + n, c, g, ts, cur);
      n := n + m;
    }

    // The switch on the token that has been read.
    method Switch(sign: char, line: string, t: nat, c: Command, ghost g: Goal, ghost ts: seq<string>, ghost cur: Cmd)
      returns (jump: Jump, n: nat, ghost ts': seq<string>, ghost cur': Cmd)
      requires AfterToken(line, t, c, g, ts, cur) && sign == ts[0][0]
      modifies this`cp, cbuf, c
      ensures jump.ToNewCmd? ==> AtNewCmd(line, t + n, c, g, ts', cur') && |ts'| < |ts|
      ensures jump.ToNewToken? ==> AtNewToken(line, t + n, c, g, ts', cur') && |ts'| < |ts|
      ensures jump.Return? ==> Returns(c, g, jump.r)
      ensures |ts'| <= |ts|
    {
      SignText(ts[0]);
      ts', cur' := ts[1..], cur;
      n := 0;
      match sign
      case '|' =>
        jump := ToNewCmd;
      case '&' =>
        var r := Background(line, t, c, g, ts', cur);
        jump := Return(r);
      case '<' =>
        jump, n, ts', cur' := RedirectTo(line, t, c, true, g, ts', cur);
      case '>' =>
        jump, n, ts', cur' := RedirectTo(line, t, c, false, g, ts', cur);
      case _ =>
        jump := Return(-1);
    }

    // newtoken behind a dangling redirection: nexttoken finds the end of the line once more.
    method EndAgain(line: string, t: nat, c: Command, ghost g: Goal)
      requires Left(line, t, []) && Returns(c, g, 1)
      modifies this`cp, cbuf
      ensures Returns(c, g, 1)
    {
      ghost var whole := Whole();
      var n, tok := NextToken(line, t, []);
      assert n == 0 && Whole() == whole;
    }

    method RedirectTo(line: string, t: nat, c: Command, stdin: bool, ghost g: Goal, ghost ts: seq<string>, ghost cur: Cmd)
      returns (jump: Jump, n: nat, ghost ts': seq<string>, ghost cur': Cmd)
      requires Valid() && Left(line, t, ts) && c.Shows(Mem(), cur) && Sound(g) && cbuf[cp..] == g.before[cp..]
      requires if SideOf(stdin, cur) == None then AtFile(g, Used(), ts, stdin, cur) else Refused(g, Used())
      modifies this`cp, cbuf, c
      ensures !jump.ToNewCmd?
      ensures jump.ToNewToken? ==> AtNewToken(line, t + n, c, g, ts', cur') && |ts'| < |ts|
      ensures jump.Return? ==> Returns(c, g, jump.r)
      ensures |ts'| <= |ts|
    {
      var ok;
      ts', cur' := ts, cur;
      ok, n := Redirect(line, t, c, stdin, g, ts, cur);
      if !ok {
        jump := Return(-1);
      } else if n == 0 {
        EndAgain(line, t, c, g);
        jump := Return(1);
      } else {
        ts', cur' := ts[1..], WithFile(ts[0], stdin, cur);
        jump := ToNewToken;
      }
    }

    // Between two gotos.
    ghost predicate Parsing(jump: Jump, line: string, t: nat, c: Command, g: Goal, ts: seq<string>, cur: Cmd)
      reads this, cbuf, pbuf, cmdbuf, c
    {
      match jump
      case ToNewCmd => AtNewCmd(line, t, c, g, ts, cur)
      case ToNewToken => AtNewToken(line, t, c, g, ts, cur)
      case Return(r) => Returns(c, g, r)
    }

    // From one goto to the next.
    method FollowJump(jump: Jump, line: string, t: nat, c: Command, ghost g: Goal, ghost ts: seq<string>, ghost cur: Cmd)
      returns (jump': Jump, n: nat, ghost ts': seq<string>, ghost cur': Cmd)
      requires Parsing(jump, line, t, c, g, ts, cur) && !jump.Return?
      modifies this, cbuf, pbuf, cmdbuf, c
      ensures Parsing(jump', line, t + n, c, g, ts', cur')
      ensures |ts'| < |ts| || (|ts'| == |ts| && jump'.Return?)
    {
      if jump.ToNewCmd? {
        n, ts', cur' := NewCmd(line, t, c, g, ts, cur);
        jump' := if n <= 0 then Return(-1) else ToNewToken;
      } else {
        jump', n, ts', cur' := NewToken(line, t, c, g, ts, cur);
      }
    }

    // parse, from the first newcmd.
    method ParseFrom(line: string, c: Command, ghost g: Goal, ghost tokens: seq<string>) returns (r: int)
      requires AtNewCmd(line, 0, c, g, tokens, EMPTY)
      modifies this, cbuf, pbuf, cmdbuf, c
      ensures Returns(c, g, r)
    {
      ghost var ts, cur := tokens, EMPTY;
      var t, jump := 0, ToNewCmd;
      while !jump.Return?
        invariant Parsing(jump, line, t, c, g, ts, cur)
        decreases |ts|, !jump.Return?
      {
        var n;
        jump, n, ts, cur := FollowJump(jump, line, t, c, g, ts, cur);
        t := t + n;
      }
      r := jump.r;
    }

    // The initialisation of parse.
    method Reset(line: string, c: Command, ghost g: Goal)
      requires Valid() && Parsable(line) && g == Goal(ParseLine(line), UseLine(line), cbuf[..])
      modifies this, cmdbuf, c
      ensures AtNewCmd(line, 0, c, g, Tokens(line), EMPTY)
    {
      Init();
      c.rstdin, c.rstdout, c.rstderr, c.background, c.pgm := -1, -1, -1, false, -1;
      ParseBegins(line, c, g);
    }

    /** parse: 1 and the command, or -1. Between two calls only what is left in cbuf matters, and that
        only when the line ends behind a redirection sign. */
    method Parse(line: string, c: Command) returns (r: int)
      requires Valid() && Parsable(line)
      modifies this, cbuf, pbuf, cmdbuf, c
      ensures Returns(c, Goal(ParseLine(line), UseLine(line), old(cbuf[..])), r)
      ensures r == Verdict(line, old(cbuf[..])) && cbuf[..] == LeftInCbuf(line, old(cbuf[..]))
      ensures ParseLine(line).Accepted? ==> r == 1
      ensures ParseLine(line).Rejected? ==> r == -1
      ensures ParseLine(line).Dangling? ==>
        r == if IsIdentifier(CString(old(cbuf[..]), |UseLine(line).text|)) then 1 else -1
      ensures cbuf[..] == UseLine(line).text + old(cbuf[..])[|UseLine(line).text|..]
    {
      ghost var g := Goal(ParseLine(line), UseLine(line), cbuf[..]);
      Reset(line, c, g);
      r := ParseFrom(line, c, g, Tokens(line));
      ReturnsMeans(c, line, g, r);
    }

    lemma ReturnsMeans(c: Command, line: string, g: Goal, r: int)
      requires Parsable(line) && g.outcome == ParseLine(line) && g.use == UseLine(line) && Returns(c, g, r)
      ensures r == Verdict(line, g.before) && cbuf[..] == LeftInCbuf(line, g.before)
    {
      assert cbuf[..] == cbuf[..cp] + cbuf[cp..];
    }

    lemma ParseBegins(line: string, c: Command, g: Goal)
      requires Valid() && IsLine(line) && cp == 0 && pp == 0 && cmds == 0
      requires c.rstdin == c.rstdout == c.rstderr == c.pgm == -1 && !c.background
      requires g.outcome == ParseLine(line) && g.use == UseLine(line) && Sound(g) && g.before == cbuf[..]
      ensures AtNewCmd(line, 0, c, g, Tokens(line), EMPTY)
    {
      LineBegins(g, Used(), line);
      WholeLineLeft(line);
    }
  }
}
