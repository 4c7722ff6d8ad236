/** Runs of server-io-multiplexing.cpp itself, which skips the rest of a round when accept fails or the
    new socket cannot be made non-blocking, and then does not close that socket. */
module SelectLeak {
  import opened EchoTypes
  import opened EchoServer
  import opened SelectServer
  import opened SelectRounds
  import opened SelectRefinement

  /** A socket that is opened and forgotten. */
  predicate Leaks(inp: SelectServer.Input, listenfd: int) {
    Accepts(inp, listenfd) && !inp.accept.nonblocking
  }

  function NextOrSkip(w: World, inp: SelectServer.Input, listenfd: int): World
    requires Possible(w, inp, listenfd)
  {
    if Skips(inp, listenfd) then World(w.es, w.descriptors + Members(Opened(inp, listenfd))) else Next(w, inp, listenfd)
  }

  predicate RoundAt(ws: seq<World>, inps: seq<SelectServer.Input>, listenfd: int, k: nat)
    requires |ws| == |inps| + 1 && k < |inps|
  {
    Possible(ws[k], inps[k], listenfd) && ws[k + 1] == NextOrSkip(ws[k], inps[k], listenfd)
  }

  ghost predicate LeakyRun(ws: seq<World>, inps: seq<SelectServer.Input>, listenfd: int) {
    && listenfd >= 0 && |ws| == |inps| + 1
    && ws[0] == World([], {listenfd})
    && forall k :: 0 <= k < |inps| ==> RoundAt(ws, inps, listenfd, k)
  }

  /** The sockets forgotten in the first `k` rounds. */
  function Leaked(inps: seq<SelectServer.Input>, listenfd: int, k: nat): set<int>
    requires k <= |inps|
  {
    if k == 0 then {}
    else Leaked(inps, listenfd, k - 1) + if Leaks(inps[k - 1], listenfd) then {inps[k - 1].accept.fd} else {}
  }

  // The world without the forgotten sockets is sound.
  predicate SoundBut(w: World, leaked: set<int>, listenfd: int) {
    && leaked <= w.descriptors && listenfd !in leaked
    && (forall i :: 0 <= i < |w.es| ==> w.es[i].sock !in leaked)
    && Sound(World(w.es, w.descriptors - leaked), listenfd)
  }

  lemma SkippedRound(w: World, leaked: set<int>, inp: SelectServer.Input, listenfd: int)
    requires SoundBut(w, leaked, listenfd) && Possible(w, inp, listenfd) && Skips(inp, listenfd)
    ensures SoundBut(NextOrSkip(w, inp, listenfd),
                     leaked + if Leaks(inp, listenfd) then {inp.accept.fd} else {}, listenfd)
  {
    var w' := NextOrSkip(w, inp, listenfd);
    var more: set<int> := if Leaks(inp, listenfd) then {inp.accept.fd} else {};
    MembersAreCounted(Opened(inp, listenfd));
    forall i | 0 <= i < |w.es| ensures w.es[i].sock !in more {
      SockMember(w.es, i);
    }
    assert w'.descriptors - (leaked + more) == w.descriptors - leaked;
  }

  lemma FullRound(w: World, leaked: set<int>, inp: SelectServer.Input, listenfd: int)
    requires SoundBut(w, leaked, listenfd) && Possible(w, inp, listenfd) && !Skips(inp, listenfd)
    ensures SoundBut(NextOrSkip(w, inp, listenfd), leaked, listenfd)
  {
    var u := World(w.es, w.descriptors - leaked);
    var w', u' := Next(w, inp, listenfd), Next(u, inp, listenfd);
    StepKeepsSound(u, inp, listenfd);
    forall fd | fd in leaked ensures fd !in Members(Socks(w'.es)) && fd !in Members(RoundClosed(w.es, inp, listenfd)) {
      Unmoved(u, inp, listenfd, fd);
      MembersAreCounted(Socks(w'.es));
      MembersAreCounted(RoundClosed(w.es, inp, listenfd));
    }
    forall i | 0 <= i < |w'.es| ensures w'.es[i].sock !in leaked {
      SockMember(w'.es, i);
    }
    assert w'.descriptors - leaked == u'.descriptors by {
      OpenedNotLeaked(w, leaked, inp, listenfd);
    }
  }

  lemma OpenedNotLeaked(w: World, leaked: set<int>, inp: SelectServer.Input, listenfd: int)
    requires Possible(w, inp, listenfd) && leaked <= w.descriptors
    ensures Members(Opened(inp, listenfd)) !! leaked
  {
  }

  // A descriptor that is neither in the vector nor accepted is not touched.
  lemma Unmoved(u: World, inp: SelectServer.Input, listenfd: int, fd: int)
    requires Sound(u, listenfd) && Possible(u, inp, listenfd)
    requires fd !in Members(Socks(u.es)) && fd !in Members(Opened(inp, listenfd))
    ensures fd !in multiset(Socks(Next(u, inp, listenfd).es)) && fd !in multiset(RoundClosed(u.es, inp, listenfd))
  {
    RoundConserves(u, inp, listenfd);
    MembersAreCounted(Socks(u.es));
    MembersAreCounted(Opened(inp, listenfd));
    var before, arrived := multiset(Socks(u.es)), multiset(Opened(inp, listenfd));
    assert fd !in before + arrived;
  }

  lemma {:induction false} SoundButLeaked(ws: seq<World>, inps: seq<SelectServer.Input>, listenfd: int, k: nat)
    requires LeakyRun(ws, inps, listenfd) && k < |ws|
    ensures SoundBut(ws[k], Leaked(inps, listenfd, k), listenfd)
  {
    if k > 0 {
      SoundButLeaked(ws, inps, listenfd, k - 1);
      assert RoundAt(ws, inps, listenfd, k - 1);
      var w, inp, leaked := ws[k - 1], inps[k - 1], Leaked(inps, listenfd, k - 1);
      if Skips(inp, listenfd) {
        SkippedRound(w, leaked, inp, listenfd);
      } else {
        FullRound(w, leaked, inp, listenfd);
        assert leaked + {} == leaked;
      }
    }
  }

  lemma {:induction false} LeakedExactly(inps: seq<SelectServer.Input>, listenfd: int, k: nat)
    requires k <= |inps|
    ensures Leaked(inps, listenfd, k) == {} <==> forall j :: 0 <= j < k ==> !Leaks(inps[j], listenfd)
  {
    if k > 0 {
      LeakedExactly(inps, listenfd, k - 1);
    }
  }

  /** The open descriptors are the listening socket and the sockets in the vector if and only if no
      accepted socket so far could not be made non-blocking. */
  lemma ConservedExactly(ws: seq<World>, inps: seq<SelectServer.Input>, listenfd: int, k: nat)
    requires LeakyRun(ws, inps, listenfd) && k < |ws|
    ensures ws[k].descriptors == {listenfd} + Members(Socks(ws[k].es))
       <==> forall j :: 0 <= j < k ==> !Leaks(inps[j], listenfd)
  {
    var leaked := Leaked(inps, listenfd, k);
    SoundButLeaked(ws, inps, listenfd, k);
    LeakedExactly(inps, listenfd, k);
    var w := ws[k];
    forall fd | fd in leaked ensures fd !in {listenfd} + Members(Socks(w.es)) {
    }
    assert w.descriptors == (w.descriptors - leaked) + leaked;
  }

  // ----- its connections are served all the same

  // The answer of a round on `fd`, if there is one.
  function ServedIn(inp: SelectServer.Input, listenfd: int, fd: int): seq<Answer> {
    if fd in inp.ready && !Skips(inp, listenfd) then [inp.answers(fd)] else []
  }

  /** The answers on `fd` in rounds a, ..., m - 1, without the skipped ones. */
  function AnswersServed(inps: seq<SelectServer.Input>, listenfd: int, fd: int, a: nat, m: nat): seq<Answer>
    requires a <= m <= |inps|
  {
    if m == a then []
    else AnswersServed(inps, listenfd, fd, a, m - 1) + ServedIn(inps[m - 1], listenfd, fd)
  }

  lemma ServedOneMore(w: World, leaked: set<int>, inp: SelectServer.Input, listenfd: int, fd: int, answers: seq<Answer>)
    requires SoundBut(w, leaked, listenfd) && Possible(w, inp, listenfd)
    requires HasSock(w.es, fd) && Simulates(w.es, fd, answers)
    ensures Simulates(NextOrSkip(w, inp, listenfd).es, fd, answers + ServedIn(inp, listenfd, fd))
  {
    if Skips(inp, listenfd) {
      assert answers + [] == answers;
    } else {
      OneMoreRound(World(w.es, w.descriptors - leaked), inp, listenfd, fd, answers);
    }
  }

  /** A round that meets a failed accept, or a socket that cannot be made non-blocking, leaves every connection
      alone; in any other, each gets the answer on its socket, if that is ready. */
  lemma LeakyRoundOnOne(ws: seq<World>, inps: seq<SelectServer.Input>, listenfd: int, k: nat, fd: int, c: Conn)
    requires LeakyRun(ws, inps, listenfd) && k < |inps| && Has(ws[k].es, fd, c)
    ensures var inp := inps[k];
      if fd !in inp.ready || (listenfd in inp.ready && (inp.accept == AcceptFailed || !inp.accept.nonblocking))
      then Has(ws[k + 1].es, fd, c)
      else
        && Fits(c, inp.answers(fd))
        && if Ends(c, inp.answers(fd)) then !HasSock(ws[k + 1].es, fd) else Has(ws[k + 1].es, fd, After(c, inp.answers(fd)))
  {
    var leaked := Leaked(inps, listenfd, k);
    SoundButLeaked(ws, inps, listenfd, k);
    assert RoundAt(ws, inps, listenfd, k);
    if !Skips(inps[k], listenfd) {
      RoundOnOne(World(ws[k].es, ws[k].descriptors - leaked), inps[k], listenfd, fd, c);
    }
  }

  // Round `m` finds the connection as the iterative server would have left it.
  ghost predicate Tracks(ws: seq<World>, inps: seq<SelectServer.Input>, listenfd: int, fd: int, a: nat, m: nat)
    requires a <= m <= |inps| && m < |ws|
  {
    Simulates(ws[m].es, fd, AnswersServed(inps, listenfd, fd, a, m))
  }

  lemma TracksFrom(ws: seq<World>, inps: seq<SelectServer.Input>, listenfd: int, fd: int, a: nat)
    requires LeakyRun(ws, inps, listenfd) && a <= |inps| && Has(ws[a].es, fd, ACCEPTED)
    ensures Tracks(ws, inps, listenfd, fd, a, a)
  {
    SoundButLeaked(ws, inps, listenfd, a);
    var i :| 0 <= i < |ws[a].es| && ws[a].es[i] == Entry(fd, ACCEPTED);
    assert HasSock(ws[a].es, fd);
  }

  lemma TracksOn(ws: seq<World>, inps: seq<SelectServer.Input>, listenfd: int, fd: int, a: nat, m: nat)
    requires LeakyRun(ws, inps, listenfd) && a < m <= |inps|
    requires HasSock(ws[m - 1].es, fd) && Tracks(ws, inps, listenfd, fd, a, m - 1)
    ensures Tracks(ws, inps, listenfd, fd, a, m)
  {
    SoundButLeaked(ws, inps, listenfd, m - 1);
    assert RoundAt(ws, inps, listenfd, m - 1);
    ServedOneMore(ws[m - 1], Leaked(inps, listenfd, m - 1), inps[m - 1], listenfd, fd,
                  AnswersServed(inps, listenfd, fd, a, m - 1));
  }

  /** Each connection is served as the iterative server would serve it alone, on the answers of the
      rounds that are not skipped. */
  lemma {:induction false} LeakyRefinesIterative(ws: seq<World>, inps: seq<SelectServer.Input>, listenfd: int,
                                                 fd: int, a: nat, m: nat)
    requires LeakyRun(ws, inps, listenfd) && a <= m <= |inps|
    requires Has(ws[a].es, fd, ACCEPTED)
    requires forall k :: a <= k < m ==> HasSock(ws[k].es, fd)
    ensures Tracks(ws, inps, listenfd, fd, a, m)
  {
    if m == a {
      TracksFrom(ws, inps, listenfd, fd, a);
    } else {
      LeakyRefinesIterative(ws, inps, listenfd, fd, a, m - 1);
      TracksOn(ws, inps, listenfd, fd, a, m);
    }
  }

  /** One round is enough to lose a descriptor. */
  lemma DescriptorCanLeak() returns (ws: seq<World>, inps: seq<SelectServer.Input>)
    ensures LeakyRun(ws, inps, 3) && |inps| == 1
    ensures 4 in ws[1].descriptors && ws[1].es == []
    ensures ws[1].descriptors != {3} + Members(Socks(ws[1].es))
  {
    var inp := SelectServer.Input({3}, Accepted(4, false), _ => Answer(RecvError, SendError));
    var w := World([], {3});
    inps := [inp];
    ws := [w, NextOrSkip(w, inp, 3)];
    assert RoundAt(ws, inps, 3, 0);
  }
}
