/** C strings, argument lists and linked lists inside the parser's pools; an index of -1 is NULL. */
module ShellMemory {
  import opened ShellSyntax

  /** A Pgm: an index into cmdbuf and one into pbuf. */
  datatype Cell = Cell(next: int, pgmlist: int)

  datatype Memory = Memory(chars: string, ptrs: seq<int>, cells: seq<Cell>)

  /** The C string at `p`, up to its zero. */
  function CString(chars: string, p: nat): string
    requires p <= |chars|
    decreases |chars| - p
  {
    if p == |chars| || chars[p] == '\0' then "" else [chars[p]] + CString(chars, p + 1)
  }

  predicate HasString(chars: string, p: int, t: string) {
    0 <= p && p + |t| < |chars| && chars[p..p + |t|] == t && chars[p + |t|] == '\0'
  }

  predicate HasFile(chars: string, p: int, f: Option<string>) {
    if f.None? then p == -1 else HasString(chars, p, f.value)
  }

  /** A list of arguments that ends with NULL. */
  predicate HasWords(m: Memory, q: int, ws: seq<string>) {
    && 0 <= q && q + |ws| < |m.ptrs| && m.ptrs[q + |ws|] == -1
    && forall k :: 0 <= k < |ws| ==> HasString(m.chars, m.ptrs[q + k], ws[k])
  }

  /** A list of programs, followed through its links. */
  predicate HasList(m: Memory, i: int, pgms: seq<seq<string>>)
    decreases |pgms|
  {
    if pgms == [] then i == -1
    else
      && 0 <= i < |m.cells| && HasWords(m, m.cells[i].pgmlist, pgms[0])
      && HasList(m, m.cells[i].next, pgms[1..])
  }

  // ----- more memory

  predicate Extends(m: Memory, n: Memory) {
    m.chars <= n.chars && m.ptrs <= n.ptrs && m.cells <= n.cells
  }

  lemma ExtendsTransitive(m: Memory, n: Memory, o: Memory)
    requires Extends(m, n) && Extends(n, o)
    ensures Extends(m, o)
  {
  }

  lemma StringKept(m: Memory, n: Memory, p: int, t: string)
    requires HasString(m.chars, p, t) && Extends(m, n)
    ensures HasString(n.chars, p, t)
  {
    assert m.chars == n.chars[..|m.chars|];
  }

  lemma FileKept(m: Memory, n: Memory, p: int, f: Option<string>)
    requires HasFile(m.chars, p, f) && Extends(m, n)
    ensures HasFile(n.chars, p, f)
  {
    if f.Some? {
      StringKept(m, n, p, f.value);
    }
  }

  lemma WordsKept(m: Memory, n: Memory, q: int, ws: seq<string>)
    requires HasWords(m, q, ws) && Extends(m, n)
    ensures HasWords(n, q, ws)
  {
    forall k | 0 <= k < |ws| ensures HasString(n.chars, n.ptrs[q + k], ws[k]) {
      StringKept(m, n, m.ptrs[q + k], ws[k]);
    }
  }

  lemma {:induction false} ListKept(m: Memory, n: Memory, i: int, pgms: seq<seq<string>>)
    requires HasList(m, i, pgms) && Extends(m, n)
    ensures HasList(n, i, pgms)
    decreases |pgms|
  {
    if pgms != [] {
      WordsKept(m, n, m.cells[i].pgmlist, pgms[0]);
      ListKept(m, n, m.cells[i].next, pgms[1..]);
    }
  }

  // ----- reading strings

  lemma {:induction false} ReadString(chars: string, p: nat, t: string)
    requires HasString(chars, p, t) && IsLine(t)
    ensures CString(chars, p) == t
    decreases |t|
  {
    if t != [] {
      assert chars[p] == t[0] && chars[p + 1..p + |t|] == t[1..];
      ReadString(chars, p + 1, t[1..]);
    }
  }

  lemma {:induction false} StringThere(chars: string, p: nat)
    requires p < |chars| && chars[|chars| - 1] == '\0'
    ensures HasString(chars, p, CString(chars, p))
    decreases |chars| - p
  {
    if chars[p] == '\0' {
      assert chars[p..p] == "";
    } else {
      StringThere(chars, p + 1);
      var t := CString(chars, p + 1);
      assert chars[p..p + 1 + |t|] == [chars[p]] + chars[p + 1..p + 1 + |t|];
    }
  }

  lemma {:induction false} SameTail(a: string, b: string, p: nat)
    requires |a| == |b| && p <= |a| && a[p..] == b[p..]
    ensures CString(a, p) == CString(b, p)
    decreases |a| - p
  {
    if p < |a| {
      assert a[p] == a[p..][0] && a[p + 1..] == a[p..][1..] && b[p + 1..] == b[p..][1..];
      SameTail(a, b, p + 1);
    }
  }

  /** `before` with the first `n` characters of a text written at `p`. */
  function Written(before: string, p: nat, text: string, n: nat): (after: string)
    requires n <= |text| && p + n <= |before|
    ensures |after| == |before|
  {
    if n == 0 then before else Written(before, p, text, n - 1)[p + n - 1 := text[n - 1]]
  }

  lemma {:induction false} WrittenIs(before: string, p: nat, text: string, n: nat)
    requires n <= |text| && p + n <= |before|
    ensures Written(before, p, text, n) == before[..p] + text[..n] + before[p + n..]
  {
    if n > 0 {
      WrittenIs(before, p, text, n - 1);
    }
  }

  // A string and its zero between two parts.
  lemma StringBetween(a: string, t: string, b: string, all: string)
    requires all == a + t + ['\0'] + b
    ensures var q := |a| + |t| + 1;
      q <= |all| && all[..q] == a + t + ['\0'] && all[q..] == b && HasString(all[..q], |a|, t)
  {
    var q := |a| + |t| + 1;
    assert all[..q] == a + t + ['\0'];
  }

  lemma WrittenShape(before: string, p: nat, text: string, t: string)
    requires t <= text && p + |t| < |before|
    ensures Written(before, p, text, |t|)[p + |t| := '\0'] == before[..p] + t + ['\0'] + before[p + |t| + 1..]
  {
    WrittenIs(before, p, text, |t|);
    assert text[..|t|] == t;
  }

  /** A token, written with its zero. */
  lemma TokenWritten(before: string, after: string, p: nat, text: string, t: string)
    requires t <= text && p + |t| < |before| && before[|before| - 1] == '\0'
    requires after == Written(before, p, text, |t|)[p + |t| := '\0']
    ensures var q := p + |t| + 1;
      && |after| == |before| && after[..q] == before[..p] + t + ['\0'] && after[q..] == before[q..]
      && HasString(after[..q], p, t) && after[|after| - 1] == '\0'
  {
    var q := p + |t| + 1;
    WrittenShape(before, p, text, t);
    StringBetween(before[..p], t, before[q..], after);
    if q < |before| {
      assert after[|after| - 1] == after[q..][|after| - 1 - q];
    }
  }

  lemma StringBegins(chars: string, p: nat, t: string)
    requires HasString(chars, p, t) && t != []
    ensures p < |chars| && chars[p] == t[0]
  {
    assert chars[p..p + |t|][0] == t[0];
  }

  // ----- lists of arguments while they grow

  predicate PartWords(m: Memory, q: nat, ws: seq<string>) {
    q + |ws| == |m.ptrs| && forall k :: 0 <= k < |ws| ==> HasString(m.chars, m.ptrs[q + k], ws[k])
  }

  lemma PartGrows(m: Memory, n: Memory, q: nat, ws: seq<string>, tok: int, t: string)
    requires PartWords(m, q, ws) && m.chars <= n.chars && n.ptrs == m.ptrs + [tok] && HasString(n.chars, tok, t)
    ensures PartWords(n, q, ws + [t])
  {
    forall k | 0 <= k < |ws| ensures HasString(n.chars, n.ptrs[q + k], ws[k]) {
      StringKept(m, m.(chars := n.chars), m.ptrs[q + k], ws[k]);
    }
  }

  lemma PartEnds(m: Memory, n: Memory, q: nat, ws: seq<string>)
    requires PartWords(m, q, ws) && m.chars <= n.chars && n.ptrs == m.ptrs + [-1]
    ensures HasWords(n, q, ws)
  {
    forall k | 0 <= k < |ws| ensures HasString(n.chars, n.ptrs[q + k], ws[k]) {
      StringKept(m, m.(chars := n.chars), m.ptrs[q + k], ws[k]);
    }
  }

  /** The result of parse: a structure of the caller. */
  class Command {
    var pgm: int
    var rstdin: int
    var rstdout: int
    var rstderr: int
    var background: bool

    constructor () {
      pgm, rstdin, rstdout, rstderr, background := -1, -1, -1, -1, false;
    }

    ghost predicate Shows(m: Memory, d: Cmd)
      reads this
    {
      && HasList(m, pgm, d.pgms) && HasFile(m.chars, rstdin, d.stdin) && HasFile(m.chars, rstdout, d.stdout)
      && rstderr == -1 && background == d.background
    }
  }

  lemma ShowsKept(c: Command, m: Memory, n: Memory, d: Cmd)
    requires c.Shows(m, d) && Extends(m, n)
    ensures c.Shows(n, d)
  {
    ListKept(m, n, c.pgm, d.pgms);
    FileKept(m, n, c.rstdin, d.stdin);
    FileKept(m, n, c.rstdout, d.stdout);
  }

  // A program in front of a list.
  lemma ListGrows(m: Memory, i: nat, words: seq<string>, pgms: seq<seq<string>>)
    requires i < |m.cells| && HasWords(m, m.cells[i].pgmlist, words) && HasList(m, m.cells[i].next, pgms)
    ensures HasList(m, i, [words] + pgms)
  {
    assert ([words] + pgms)[1..] == pgms;
  }
}
