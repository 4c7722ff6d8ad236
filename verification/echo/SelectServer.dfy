/** The multiplexing server: one round of its select loop over the vector of connections, which is
    pushed to and erased from while it is walked. */
module SelectServer {
  import opened EchoTypes
  import opened EchoServer

  /** A connection in the vector, as a value. */
  datatype Entry = Entry(sock: int, conn: Conn)

  /** What accept gives when the listening socket is readable. */
  datatype Accept = AcceptFailed | Accepted(fd: int, nonblocking: bool)

  // What select leaves in the two descriptor sets, and what the kernel answers on each socket.
  datatype Events = Events(readfds: set<int>, writefds: set<int>, answers: int -> Answer)
  {
    predicate Ready(e: Entry) {
      e.sock != -1 && if e.conn.state == Receiving then e.sock in readfds else e.sock in writefds
    }

    predicate Fit(e: Entry) {
      Ready(e) ==> Fits(e.conn, answers(e.sock))
    }

    /** Whether a visited connection stays in the vector. */
    predicate Stays(e: Entry) {
      e.sock != -1 && (Ready(e) ==> Keeps(e.conn, answers(e.sock)))
    }

    function Visited(e: Entry): Entry
      requires Fit(e)
    {
      if Ready(e) then Entry(e.sock, After(e.conn, answers(e.sock))) else e
    }
  }

  predicate AllFitEvents(es: seq<Entry>, v: Events) {
    forall i :: 0 <= i < |es| ==> v.Fit(es[i])
  }

  /** The first `n` connections visited once each, in order; those that end are dropped. */
  function Survivors(es: seq<Entry>, n: nat, v: Events): seq<Entry>
    requires n <= |es| && AllFitEvents(es, v)
  {
    if n == 0 then []
    else Survivors(es, n - 1, v) + if v.Stays(es[n - 1]) then [v.Visited(es[n - 1])] else []
  }

  predicate Closes(e: Entry, v: Events) {
    !v.Stays(e) && e.sock != -1
  }

  /** The sockets that the round closes, in order. */
  function Closed(es: seq<Entry>, n: nat, v: Events): seq<int>
    requires n <= |es|
  {
    if n == 0 then [] else Closed(es, n - 1, v) + if Closes(es[n - 1], v) then [es[n - 1].sock] else []
  }

  function Members(fds: seq<int>): set<int> {
    set fd | fd in fds
  }

  /** The sockets of the connections in a state. */
  function Watched(es: seq<Entry>, state: ConnState): set<int> {
    set i | 0 <= i < |es| && es[i].sock != -1 && es[i].conn.state == state :: es[i].sock
  }

  function Socks(es: seq<Entry>): seq<int> {
    seq(|es|, i requires 0 <= i < |es| => es[i].sock)
  }

  /** One connection per socket, and none on the listening socket. */
  predicate Distinct(es: seq<Entry>, listenfd: int) {
    && (forall i, j :: 0 <= i < j < |es| ==> es[i].sock != es[j].sock)
    && (forall i :: 0 <= i < |es| ==> es[i].sock != listenfd)
  }

  /** All that the outside does to one round: what is ready, whom accept finds, what recv and send
      return. */
  datatype Input = Input(ready: set<int>, accept: Accept, answers: int -> Answer)

  predicate Accepts(inp: Input, listenfd: int) {
    listenfd in inp.ready && inp.accept.Accepted?
  }

  function Arrivals(inp: Input, listenfd: int): seq<Entry> {
    if Accepts(inp, listenfd) && inp.accept.nonblocking then [Entry(inp.accept.fd, ACCEPTED)] else []
  }

  // A new socket that could not be made non-blocking.
  function Refused(inp: Input, listenfd: int): seq<int> {
    if Accepts(inp, listenfd) && !inp.accept.nonblocking then [inp.accept.fd] else []
  }

  /** What is left of the descriptor sets after select. */
  function Selected(es: seq<Entry>, inp: Input, listenfd: int): Events {
    Events(({listenfd} + Watched(es, Receiving)) * inp.ready, Watched(es, Sending) * inp.ready, inp.answers)
  }

  predicate InputFits(es: seq<Entry>, inp: Input, listenfd: int) {
    AllFitEvents(es + Arrivals(inp, listenfd), Selected(es, inp, listenfd))
  }

  /** The vector after a round, and the sockets closed in it. */
  function RoundEntries(es: seq<Entry>, inp: Input, listenfd: int): seq<Entry>
    requires InputFits(es, inp, listenfd)
  {
    var all := es + Arrivals(inp, listenfd);
    Survivors(all, |all|, Selected(es, inp, listenfd))
  }

  function RoundClosed(es: seq<Entry>, inp: Input, listenfd: int): seq<int>
    requires InputFits(es, inp, listenfd)
  {
    var all := es + Arrivals(inp, listenfd);
    Refused(inp, listenfd) + Closed(all, |all|, Selected(es, inp, listenfd))
  }

  /** server-io-multiplexing.cpp goes on to the next round when accept fails, or the new socket cannot be
      made non-blocking; its skeleton does not. */
  predicate Skips(inp: Input, listenfd: int) {
    listenfd in inp.ready && (inp.accept.AcceptFailed? || !inp.accept.nonblocking)
  }

  lemma SelectedApart(es: seq<Entry>, inp: Input, listenfd: int)
    requires Distinct(es, listenfd)
    ensures Selected(es, inp, listenfd).readfds !! Selected(es, inp, listenfd).writefds
  {
  }

  lemma AppendRound(before: seq<int>, es: seq<Entry>, inp: Input, listenfd: int)
    requires InputFits(es, inp, listenfd)
    ensures var all := es + Arrivals(inp, listenfd);
      before + Refused(inp, listenfd) + Closed(all, |all|, Selected(es, inp, listenfd))
      == before + RoundClosed(es, inp, listenfd)
  {
  }

  // ----- the round, in place

  // No two connections share memory.
  ghost predicate Separate(cs: seq<ConnectionData>) {
    forall i, j :: 0 <= i < j < |cs| ==> cs[i] != cs[j] && cs[i].buffer != cs[j].buffer
  }

  ghost predicate Within(cs: seq<ConnectionData>, repr: set<object>) {
    forall c :: c in cs ==> c in repr && c.buffer in repr
  }

  ghost predicate Shows(cs: seq<ConnectionData>, es: seq<Entry>)
    reads cs, set c | c in cs :: c.buffer
  {
    |cs| == |es| &&
    forall i :: 0 <= i < |cs| ==> cs[i].Valid() && es[i] == Entry(cs[i].sock, cs[i].View())
  }

  lemma ShowsOneMore(cs: seq<ConnectionData>, es: seq<Entry>, c: ConnectionData)
    requires Shows(cs, es) && c.Valid()
    ensures Shows(cs + [c], es + [Entry(c.sock, c.View())])
  {
  }

  lemma SeparateNext(kept: seq<ConnectionData>, rest: seq<ConnectionData>)
    requires Separate(kept + rest) && rest != []
    ensures Separate(kept + rest[1..]) && Separate(kept + [rest[0]] + rest[1..])
    ensures forall c :: c in kept || c in rest[1..] ==> c != rest[0] && c.buffer != rest[0].buffer
  {
    var all := kept + rest;
    var k := |kept|;
    assert all[k] == rest[0] && kept + [rest[0]] + rest[1..] == all;
    assert forall i :: 0 <= i < k ==> all[i] == kept[i];
    assert forall i :: 1 <= i < |rest| ==> all[k + i] == rest[i];
    assert kept + rest[1..] == all[..k] + all[k + 1..];
  }

  lemma SeparateOneMore(cs: seq<ConnectionData>, c: ConnectionData, repr: set<object>)
    requires Separate(cs) && Within(cs, repr) && c !in repr && c.buffer !in repr
    ensures Separate(cs + [c]) && Within(cs + [c], repr + {c, c.buffer})
  {
    forall i | 0 <= i < |cs| ensures cs[i] != c && cs[i].buffer != c.buffer {
      assert cs[i] in cs;
    }
  }

  lemma AppendClosed(before: seq<int>, es: seq<Entry>, n: nat, v: Events)
    requires n < |es|
    ensures before + Closed(es, n + 1, v) == before + Closed(es, n, v) + if Closes(es[n], v) then [es[n].sock] else []
  {
  }

  lemma ShowsTail(cs: seq<ConnectionData>, es: seq<Entry>)
    requires cs != [] && Shows(cs, es)
    ensures Shows(cs[1..], es[1..])
  {
  }

  /** One visit of the process loop: recv or send if select said so. */
  method ProcessConnection(cd: ConnectionData, v: Events) returns (keep: bool)
    requires cd.Valid() && cd.sock != -1
    requires v.Fit(Entry(cd.sock, cd.View()))
    requires !(cd.sock in v.readfds && cd.sock in v.writefds)
    modifies cd, cd.buffer
    ensures cd.Valid() && Entry(cd.sock, cd.View()) == v.Visited(Entry(cd.sock, old(cd.View())))
    ensures keep == v.Stays(Entry(cd.sock, old(cd.View())))
    ensures keep <==> !(v.Ready(Entry(cd.sock, old(cd.View()))) && Ends(old(cd.View()), v.answers(cd.sock)))
  {
    keep := true;
    if cd.sock in v.readfds && cd.state == Receiving {
      keep := cd.ProcessClientRecv(v.answers(cd.sock).recv);
    }
    if keep && cd.sock in v.writefds && cd.state == Sending {
      keep := cd.ProcessClientSend(v.answers(cd.sock).send);
    }
  }

  class Server {
    const listenfd: int
    var connections: seq<ConnectionData>
    // Every close so far.
    var closed: seq<int>

    constructor (listenfd: int)
      requires listenfd >= 0
      ensures this.listenfd == listenfd && connections == [] && closed == []
    {
      this.listenfd := listenfd;
      connections, closed := [], [];
    }

    method Close(fd: int)
      modifies this`closed
      ensures closed == old(closed) + [fd]
    {
      closed := closed + [fd];
    }

    /** The registration loop: which sockets are watched for what. */
    method Register(ghost es: seq<Entry>) returns (readfds: set<int>, writefds: set<int>)
      requires Shows(connections, es)
      ensures readfds == {listenfd} + Watched(es, Receiving)
      ensures writefds == Watched(es, Sending)
    {
      readfds, writefds := {listenfd}, {};
      for i := 0 to |connections|
        invariant readfds == {listenfd} + Watched(es[..i], Receiving)
        invariant writefds == Watched(es[..i], Sending)
      {
        var cd := connections[i];
        assert es[..i + 1] == es[..i] + [es[i]];
        if cd.sock == -1 {
          continue;
        }
        if cd.state == Receiving {
          readfds := readfds + {cd.sock};
        } else {
          writefds := writefds + {cd.sock};
        }
      }
      assert es[..|connections|] == es;
    }

    /** Accepting one client: a socket that cannot be made non-blocking is closed again. */
    method AcceptClient(a: Accept, ghost es: seq<Entry>, ghost repr: set<object>) returns (ghost repr': set<object>)
      requires Shows(connections, es) && Separate(connections) && Within(connections, repr)
      modifies this
      ensures Separate(connections) && Within(connections, repr') && fresh(repr' - repr)
      ensures Shows(connections, if a.Accepted? && a.nonblocking then es + [Entry(a.fd, ACCEPTED)] else es)
      ensures closed == old(closed) + if a.Accepted? && !a.nonblocking then [a.fd] else []
    {
      repr' := repr;
      if a.Accepted? {
        if !a.nonblocking {
          Close(a.fd);
        } else {
          var cd := new ConnectionData(a.fd);
          repr' := repr + {cd, cd.buffer};
          assert Shows(connections, es);
          ShowsOneMore(connections, es, cd);
          SeparateOneMore(connections, cd, repr);
          connections := connections + [cd];
        }
      }
    }

    /** One turn of the process loop: visits the connection at the iterator, and erases it there or
        moves on. */
    method ProcessAt(it: nat, v: Events, ghost e: Entry) returns (next: nat)
      requires it < |connections| && connections[it].Valid() && v.readfds !! v.writefds
      requires e == Entry(connections[it].sock, connections[it].View()) && v.Fit(e)
      modifies this, connections[it], connections[it].buffer
      ensures v.Stays(e) ==>
        && next == it + 1 && connections == old(connections)
        && connections[it].Valid() && Entry(connections[it].sock, connections[it].View()) == v.Visited(e)
      ensures !v.Stays(e) ==> next == it && connections == old(connections[..it] + connections[it + 1..])
      ensures closed == old(closed) + if Closes(e, v) then [e.sock] else []
      ensures next == it <==> e.sock == -1 || (v.Ready(e) && Ends(e.conn, v.answers(e.sock)))
    {
      var cd := connections[it];
      next := it;
      if cd.sock == -1 {
        connections := connections[..it] + connections[it + 1..];
        return;
      }
      var keep := ProcessConnection(cd, v);
      if !keep {
        Close(cd.sock);
        connections := connections[..it] + connections[it + 1..];
      } else {
        next := it + 1;
      }
    }

    // In the middle of the walk: `kept` are the connections in front of the iterator, `rest` those
    // behind it, and `done` have been visited.
    ghost predicate Walk(kept: seq<ConnectionData>, rest: seq<ConnectionData>, es: seq<Entry>, done: nat, v: Events,
                         before: seq<int>)
      reads this, kept, rest, (set c | c in kept :: c.buffer), set c | c in rest :: c.buffer
    {
      && connections == kept + rest && Separate(connections)
      && done + |rest| == |es| && AllFitEvents(es, v)
      && Shows(kept, Survivors(es, done, v)) && Shows(rest, es[done..])
      && closed == before + Closed(es, done, v)
    }

    method Turn(it: nat, v: Events, ghost kept: seq<ConnectionData>, ghost rest: seq<ConnectionData>,
                ghost es: seq<Entry>, ghost done: nat, ghost before: seq<int>)
      returns (next: nat, ghost kept': seq<ConnectionData>)
      requires Walk(kept, rest, es, done, v, before) && it == |kept| && rest != [] && v.readfds !! v.writefds
      modifies this, rest[0], rest[0].buffer
      ensures Walk(kept', rest[1..], es, done + 1, v, before) && next == |kept'|
      ensures kept' == kept || kept' == kept + [rest[0]]
    {
      ghost var sv := Survivors(es, done, v);
      assert es[done..][0] == es[done] && es[done..][1..] == es[done + 1..];
      SeparateNext(kept, rest);
      ShowsTail(rest, es[done..]);
      next := ProcessAt(it, v, es[done]);
      assert Shows(kept, sv) && Shows(rest[1..], es[done + 1..]);
      if v.Stays(es[done]) {
        ShowsOneMore(kept, sv, rest[0]);
        kept' := kept + [rest[0]];
      } else {
        kept' := kept;
      }
      assert connections == kept' + rest[1..];
      AppendClosed(before, es, done, v);
    }

    lemma WalkBegins(es: seq<Entry>, v: Events)
      requires Shows(connections, es) && Separate(connections) && AllFitEvents(es, v)
      ensures Walk([], connections, es, 0, v, closed)
    {
      assert [] + connections == connections && es[0..] == es;
    }

    lemma WalkEnds(kept: seq<ConnectionData>, rest: seq<ConnectionData>, es: seq<Entry>, done: nat, v: Events,
                   before: seq<int>)
      requires Walk(kept, rest, es, done, v, before) && |connections| <= |kept|
      ensures connections == kept && Separate(connections)
      ensures Shows(connections, Survivors(es, |es|, v)) && closed == before + Closed(es, |es|, v)
    {
      assert rest == [] && done == |es|;
    }

    /** The process loop; `repr` is the memory of the connections. */
    method ProcessClients(v: Events, ghost es: seq<Entry>, ghost repr: set<object>)
      requires Shows(connections, es) && Separate(connections) && AllFitEvents(es, v)
      requires v.readfds !! v.writefds && Within(connections, repr)
      modifies this, repr
      ensures Shows(connections, Survivors(es, |es|, v)) && Separate(connections)
      ensures Within(connections, repr)
      ensures closed == old(closed) + Closed(es, |es|, v)
    {
      ghost var kept: seq<ConnectionData>, rest := [], connections;
      ghost var done := 0;
      var it := 0;
      WalkBegins(es, v);
      while it < |connections|
        invariant Walk(kept, rest, es, done, v, old(closed)) && it == |kept|
        invariant Within(kept, repr) && Within(rest, repr)
        decreases |rest|
      {
        assert rest[0] in rest;
        it, kept := Turn(it, v, kept, rest, es, done, old(closed));
        rest, done := rest[1..], done + 1;
      }
      WalkEnds(kept, rest, es, done, v, old(closed));
    }

    /** The first half of a round: registration, select and accept. */
    method Await(inp: Input, ghost es: seq<Entry>, ghost repr: set<object>) returns (v: Events, ghost repr': set<object>)
      requires Shows(connections, es) && Separate(connections) && Within(connections, repr)
      modifies this
      ensures v == Selected(es, inp, listenfd)
      ensures Shows(connections, es + Arrivals(inp, listenfd)) && Separate(connections)
      ensures Within(connections, repr') && fresh(repr' - repr)
      ensures closed == old(closed) + Refused(inp, listenfd)
    {
      var readfds, writefds := Register(es);
      v := Events(readfds * inp.ready, writefds * inp.ready, inp.answers);
      repr' := repr;
      if listenfd in v.readfds {
        repr' := AcceptClient(inp.accept, es, repr);
      }
      assert es + [] == es;
    }

    // The second half of a round.
    method ProcessRound(inp: Input, v: Events, ghost es: seq<Entry>, ghost repr: set<object>, ghost before: seq<int>)
      requires Shows(connections, es + Arrivals(inp, listenfd)) && Separate(connections) && Within(connections, repr)
      requires Distinct(es, listenfd) && InputFits(es, inp, listenfd) && v == Selected(es, inp, listenfd)
      requires closed == before + Refused(inp, listenfd)
      modifies this, repr
      ensures Shows(connections, RoundEntries(es, inp, listenfd)) && Separate(connections) && Within(connections, repr)
      ensures closed == before + RoundClosed(es, inp, listenfd)
    {
      SelectedApart(es, inp, listenfd);
      ProcessClients(v, es + Arrivals(inp, listenfd), repr);
      AppendRound(before, es, inp, listenfd);
    }

    /** One round of the loop in main of the skeleton. */
    method Round(inp: Input, ghost es: seq<Entry>, ghost repr: set<object>) returns (ghost repr': set<object>)
      requires Shows(connections, es) && Separate(connections) && Within(connections, repr)
      requires Distinct(es, listenfd) && InputFits(es, inp, listenfd)
      modifies this, repr
      ensures Shows(connections, RoundEntries(es, inp, listenfd)) && Separate(connections)
      ensures Within(connections, repr') && fresh(repr' - repr)
      ensures closed == old(closed) + RoundClosed(es, inp, listenfd)
    {
      var v;
      v, repr' := Await(inp, es, repr);
      ProcessRound(inp, v, es, repr', old(closed));
    }

    // The accept of server-io-multiplexing.cpp; `skip` is its `continue`.
    method AcceptOrSkip(a: Accept, ghost es: seq<Entry>, ghost repr: set<object>)
      returns (skip: bool, ghost repr': set<object>)
      requires Shows(connections, es) && Separate(connections) && Within(connections, repr)
      modifies this
      ensures skip == (a.AcceptFailed? || !a.nonblocking) && closed == old(closed)
      ensures Shows(connections, if skip then es else es + [Entry(a.fd, ACCEPTED)]) && Separate(connections)
      ensures Within(connections, repr') && fresh(repr' - repr)
    {
      if a.AcceptFailed? || !a.nonblocking {
        return true, repr;
      }
      skip := false;
      repr' := AcceptClient(a, es, repr);
      assert closed == old(closed) + [];
    }

    // The first half of a round of server-io-multiplexing.cpp.
    method AwaitOrSkip(inp: Input, ghost es: seq<Entry>, ghost repr: set<object>)
      returns (skip: bool, v: Events, ghost repr': set<object>)
      requires Shows(connections, es) && Separate(connections) && Within(connections, repr)
      modifies this
      ensures skip == Skips(inp, listenfd) && v == Selected(es, inp, listenfd) && closed == old(closed)
      ensures Shows(connections, if skip then es else es + Arrivals(inp, listenfd)) && Separate(connections)
      ensures Within(connections, repr') && fresh(repr' - repr)
    {
      var readfds, writefds := Register(es);
      v := Events(readfds * inp.ready, writefds * inp.ready, inp.answers);
      repr', skip := repr, false;
      if listenfd in v.readfds {
        skip, repr' := AcceptOrSkip(inp.accept, es, repr);
      }
      assert es + [] == es;
    }

    /** One round of the loop in main of server-io-multiplexing.cpp. */
    method RoundOrSkip(inp: Input, ghost es: seq<Entry>, ghost repr: set<object>) returns (ghost repr': set<object>)
      requires Shows(connections, es) && Separate(connections) && Within(connections, repr)
      requires Distinct(es, listenfd) && InputFits(es, inp, listenfd)
      modifies this, repr
      ensures listenfd in inp.ready && (inp.accept == AcceptFailed || !inp.accept.nonblocking) ==>
        Shows(connections, es) && closed == old(closed)
      ensures listenfd !in inp.ready || (inp.accept != AcceptFailed && inp.accept.nonblocking) ==>
        Shows(connections, RoundEntries(es, inp, listenfd)) && closed == old(closed) + RoundClosed(es, inp, listenfd)
      ensures Separate(connections) && Within(connections, repr') && fresh(repr' - repr)
    {
      var skip, v;
      skip, v, repr' := AwaitOrSkip(inp, es, repr);
      if !skip {
        assert Refused(inp, listenfd) == [] && closed + [] == closed;
        ProcessRound(inp, v, es, repr', old(closed));
      }
    }
  }
}
