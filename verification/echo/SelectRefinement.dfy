/** The multiplexing server refines the iterative one, connection by connection. */
module SelectRefinement {
  import opened EchoTypes
  import opened EchoServer
  import opened SelectServer
  import opened SelectRounds

  predicate HasSock(es: seq<Entry>, fd: int) {
    exists i :: 0 <= i < |es| && es[i].sock == fd
  }

  predicate Has(es: seq<Entry>, fd: int, c: Conn) {
    exists i :: 0 <= i < |es| && es[i] == Entry(fd, c)
  }

  /** The answers that the kernel gives on `fd` in rounds a, ..., m - 1. */
  function AnswersOn(inps: seq<Input>, fd: int, a: nat, m: nat): seq<Answer>
    requires a <= m <= |inps|
  {
    if m == a then []
    else AnswersOn(inps, fd, a, m - 1) + if fd in inps[m - 1].ready then [inps[m - 1].answers(fd)] else []
  }

  // ----- one round, seen from one connection

  lemma ReadyMeansSelected(w: World, inp: Input, listenfd: int, i: nat)
    requires Sound(w, listenfd) && Possible(w, inp, listenfd) && i < |w.es|
    ensures var v, e := Selected(w.es, inp, listenfd), w.es[i];
      v.Ready(e) <==> e.sock in inp.ready
  {
    var e := w.es[i];
    assert e.sock in Watched(w.es, e.conn.state);
  }

  /** A round makes of a connection what one answer makes of it alone; it is dropped if that answer ends it,
      and not otherwise. */
  lemma RoundOnOne(w: World, inp: Input, listenfd: int, fd: int, c: Conn)
    requires Sound(w, listenfd) && Possible(w, inp, listenfd) && Has(w.es, fd, c)
    ensures fd !in inp.ready ==> Has(Next(w, inp, listenfd).es, fd, c)
    ensures fd in inp.ready ==> Fits(c, inp.answers(fd))
    ensures fd in inp.ready && !Ends(c, inp.answers(fd)) ==>
      Has(Next(w, inp, listenfd).es, fd, After(c, inp.answers(fd)))
    ensures fd in inp.ready && Ends(c, inp.answers(fd)) ==> !HasSock(Next(w, inp, listenfd).es, fd)
  {
    var i :| 0 <= i < |w.es| && w.es[i] == Entry(fd, c);
    var v, es' := Selected(w.es, inp, listenfd), Next(w, inp, listenfd).es;
    ReadyMeansSelected(w, inp, listenfd, i);
    NewcomerUntouched(w, inp, listenfd);
    assert v.Fit(w.es[i]);
    if v.Stays(w.es[i]) {
      SurvivorAt(w.es, i, |w.es|, v);
      assert es'[|Survivors(w.es, i, v)|] == v.Visited(w.es[i]);
    } else {
      Dropped(w, inp, listenfd, i);
    }
  }

  lemma Dropped(w: World, inp: Input, listenfd: int, i: nat)
    requires Sound(w, listenfd) && Possible(w, inp, listenfd) && i < |w.es|
    requires !Selected(w.es, inp, listenfd).Stays(w.es[i])
    ensures !HasSock(Next(w, inp, listenfd).es, w.es[i].sock)
  {
    var fd, v, es' := w.es[i].sock, Selected(w.es, inp, listenfd), Next(w, inp, listenfd).es;
    NewcomerUntouched(w, inp, listenfd);
    SockMember(w.es, i);
    OpenedIsFresh(w, inp, listenfd, fd);
    forall j | 0 <= j < |es'| ensures es'[j].sock != fd {
      if j < |Survivors(w.es, |w.es|, v)| {
        OthersStay(w.es, i, j, v);
      } else {
        assert es'[j] in Arrivals(inp, listenfd);
      }
    }
  }

  lemma OthersStay(es: seq<Entry>, i: nat, j: nat, v: Events)
    requires AllFitEvents(es, v) && i < |es| && j < |Survivors(es, |es|, v)| && !v.Stays(es[i])
    requires forall p, q :: 0 <= p < q < |es| ==> es[p].sock != es[q].sock
    ensures Survivors(es, |es|, v)[j].sock != es[i].sock
  {
    var k := SurvivorFrom(es, |es|, v, j);
  }

  /** In every run a connection leaves the vector in the first round in which its socket is ready and the
      call that its state asks for fails or finds the end of input. */
  lemma LeavesExactly(ws: seq<World>, inps: seq<Input>, listenfd: int, k: nat, fd: int, c: Conn)
    requires Run(ws, inps, listenfd) && k < |inps| && Has(ws[k].es, fd, c)
    ensures var a := inps[k].answers(fd);
      !HasSock(ws[k + 1].es, fd) <==>
        fd in inps[k].ready && (if c.state == Receiving then a.recv in {Shutdown, RecvError} else a.send == SendError)
  {
    SoundAlways(ws, inps, listenfd, k);
    RoundOnOne(ws[k], inps[k], listenfd, fd, c);
    HasMeansSock(ws[k + 1].es, fd);
  }

  /** New in the vector is exactly the socket that accept returned, if it could be made non-blocking: an empty
      connection that expects to receive. One that could not is closed in the same round. */
  lemma JoinsExactly(ws: seq<World>, inps: seq<Input>, listenfd: int, k: nat, fd: int)
    requires Run(ws, inps, listenfd) && k < |inps| && !HasSock(ws[k].es, fd)
    ensures HasSock(ws[k + 1].es, fd) <==> listenfd in inps[k].ready && inps[k].accept == Accepted(fd, true)
    ensures HasSock(ws[k + 1].es, fd) ==> Has(ws[k + 1].es, fd, Conn(Receiving, []))
    ensures listenfd in inps[k].ready && inps[k].accept == Accepted(fd, false) ==> fd !in ws[k + 1].descriptors
  {
    var w, inp := ws[k], inps[k];
    var v, es', new_ := Selected(w.es, inp, listenfd), Next(w, inp, listenfd).es, Arrivals(inp, listenfd);
    SoundAlways(ws, inps, listenfd, k);
    NewcomerUntouched(w, inp, listenfd);
    var n := |Survivors(w.es, |w.es|, v)|;
    forall j | 0 <= j < n ensures es'[j].sock != fd {
      var i := SurvivorFrom(w.es, |w.es|, v, j);
      assert w.es[i].sock == es'[j].sock;
    }
    if new_ != [] {
      assert es'[n] == Entry(inp.accept.fd, Conn(Receiving, []));
    }
    if Refused(inp, listenfd) != [] {
      assert inp.accept.fd == RoundClosed(w.es, inp, listenfd)[0];
    }
  }

  // ----- a whole connection

  lemma {:induction false} ServeOneMore(c: Conn, answers: seq<Answer>, a: Answer)
    requires AllFit(c, answers) && Serve(c, answers).open
    requires Fits(Serve(c, answers).conn, a)
    ensures AllFit(c, answers + [a])
    ensures var d := Serve(c, answers).conn;
      Serve(c, answers + [a]) == Served(After(d, a), Keeps(d, a), [])
    decreases answers
  {
    if answers == [] {
      assert answers + [a] == [a];
    } else {
      assert (answers + [a])[1..] == answers[1..] + [a];
      ServeOneMore(After(c, answers[0]), answers[1..], a);
    }
  }

  // The iterative server on the same answers is where the multiplexing server is.
  ghost predicate Simulates(es: seq<Entry>, fd: int, answers: seq<Answer>) {
    && AllFit(ACCEPTED, answers)
    && var r := Serve(ACCEPTED, answers);
       if HasSock(es, fd) then r.open && Has(es, fd, r.conn) else !r.open && r.left == []
  }

  /** While a connection that was accepted as `fd` is in the vector, and up to and including the round
      that closes it, the multiplexing server does to it what the iterative server's inner loop does on
      the same answers; what happens to other connections in between does not matter. */
  lemma {:induction false} RefinesIterative(ws: seq<World>, inps: seq<Input>, listenfd: int, fd: int, a: nat, m: nat)
    requires Run(ws, inps, listenfd) && a <= m <= |inps|
    requires Has(ws[a].es, fd, ACCEPTED)
    requires forall k :: a <= k < m ==> HasSock(ws[k].es, fd)
    ensures Simulates(ws[m].es, fd, AnswersOn(inps, fd, a, m))
  {
    SoundAlways(ws, inps, listenfd, m);
    if m == a {
      var i :| 0 <= i < |ws[a].es| && ws[a].es[i] == Entry(fd, ACCEPTED);
      assert HasSock(ws[a].es, fd);
    } else {
      RefinesIterative(ws, inps, listenfd, fd, a, m - 1);
      SoundAlways(ws, inps, listenfd, m - 1);
      OneMoreRound(ws[m - 1], inps[m - 1], listenfd, fd, AnswersOn(inps, fd, a, m - 1));
    }
  }

  lemma OneMoreRound(w: World, inp: Input, listenfd: int, fd: int, answers: seq<Answer>)
    requires Sound(w, listenfd) && Possible(w, inp, listenfd)
    requires HasSock(w.es, fd) && Simulates(w.es, fd, answers)
    ensures Simulates(Next(w, inp, listenfd).es, fd, answers + if fd in inp.ready then [inp.answers(fd)] else [])
  {
    var c, es' := Serve(ACCEPTED, answers).conn, Next(w, inp, listenfd).es;
    RoundOnOne(w, inp, listenfd, fd, c);
    if fd in inp.ready {
      ServeOneMore(ACCEPTED, answers, inp.answers(fd));
      HasMeansSock(es', fd);
    } else {
      assert answers + [] == answers;
      HasMeansSock(es', fd);
    }
  }

  lemma HasMeansSock(es: seq<Entry>, fd: int)
    ensures forall c :: Has(es, fd, c) ==> HasSock(es, fd)
  {
  }

  /** In particular every connection is echoed to: what has been sent on it, and the buffer, is what has
      come in on it. */
  lemma MultiplexedEcho(ws: seq<World>, inps: seq<Input>, listenfd: int, fd: int, a: nat, m: nat)
    requires Run(ws, inps, listenfd) && a <= m <= |inps|
    requires Has(ws[a].es, fd, ACCEPTED)
    requires forall k :: a <= k < m ==> HasSock(ws[k].es, fd)
    ensures var answers := AnswersOn(inps, fd, a, m);
      && AllFit(ACCEPTED, answers)
      && EchoServer.Input(ACCEPTED, answers) == Output(ACCEPTED, answers) + Serve(ACCEPTED, answers).conn.pending
  {
    RefinesIterative(ws, inps, listenfd, fd, a, m);
    var answers := AnswersOn(inps, fd, a, m);
    ServeEchoes(ACCEPTED, answers);
    assert [] + EchoServer.Input(ACCEPTED, answers) == EchoServer.Input(ACCEPTED, answers);
  }
}
