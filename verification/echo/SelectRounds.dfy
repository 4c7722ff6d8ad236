/** Runs of the multiplexing server, round after round: descriptors are conserved, and each connection
    is served exactly as the iterative server would serve it alone. */
module SelectRounds {
  import opened EchoTypes
  import opened EchoServer
  import opened SelectServer

  // The vector, and the process's open descriptors.
  datatype World = World(es: seq<Entry>, descriptors: set<int>)

  /** The kernel accepts on a descriptor that is not open, and returns what recv and send can return. */
  predicate Possible(w: World, inp: Input, listenfd: int) {
    && InputFits(w.es, inp, listenfd)
    && (Accepts(inp, listenfd) ==> inp.accept.fd >= 0 && inp.accept.fd !in w.descriptors)
  }

  function Opened(inp: Input, listenfd: int): seq<int> {
    if Accepts(inp, listenfd) then [inp.accept.fd] else []
  }

  function Next(w: World, inp: Input, listenfd: int): World
    requires Possible(w, inp, listenfd)
  {
    World(RoundEntries(w.es, inp, listenfd),
          w.descriptors + Members(Opened(inp, listenfd)) - Members(RoundClosed(w.es, inp, listenfd)))
  }

  ghost predicate Run(ws: seq<World>, inps: seq<Input>, listenfd: int) {
    && listenfd >= 0 && |ws| == |inps| + 1
    && ws[0] == World([], {listenfd})
    && forall k :: 0 <= k < |inps| ==> Possible(ws[k], inps[k], listenfd) && ws[k + 1] == Next(ws[k], inps[k], listenfd)
  }

  // ----- what one walk over the vector does

  predicate RealSockets(es: seq<Entry>) {
    forall i :: 0 <= i < |es| ==> es[i].sock >= 0
  }

  lemma SocksAppend(es: seq<Entry>, fs: seq<Entry>)
    ensures Socks(es + fs) == Socks(es) + Socks(fs)
    ensures multiset(Socks(es + fs)) == multiset(Socks(es)) + multiset(Socks(fs))
  {
    assert Socks(es + fs) == Socks(es) + Socks(fs);
  }

  lemma SocksOne(e: Entry)
    ensures Socks([e]) == [e.sock]
  {
  }

  lemma OneMoreSock(es: seq<Entry>, n: nat)
    requires n < |es|
    ensures multiset(Socks(es[..n + 1])) == multiset(Socks(es[..n])) + multiset{es[n].sock}
  {
    assert es[..n + 1] == es[..n] + [es[n]];
    SocksAppend(es[..n], [es[n]]);
    SocksOne(es[n]);
  }

  // Where the first `n` sockets are after their visits: still in the vector, or closed.
  ghost function Accounted(es: seq<Entry>, n: nat, v: Events): multiset<int>
    requires n <= |es| && AllFitEvents(es, v)
  {
    multiset(Socks(Survivors(es, n, v))) + multiset(Closed(es, n, v))
  }

  lemma OneVisited(es: seq<Entry>, n: nat, v: Events, before: multiset<int>, after: multiset<int>)
    requires n < |es| && AllFitEvents(es, v) && es[n].sock >= 0
    requires before == Accounted(es, n, v) && after == Accounted(es, n + 1, v)
    ensures after == before + multiset{es[n].sock}
  {
    var e := es[n];
    if v.Stays(e) {
      SocksAppend(Survivors(es, n, v), [v.Visited(e)]);
      SocksOne(v.Visited(e));
      assert Closed(es, n + 1, v) == Closed(es, n, v);
    } else {
      assert Closed(es, n + 1, v) == Closed(es, n, v) + [e.sock];
      assert Survivors(es, n + 1, v) == Survivors(es, n, v);
    }
  }

  /** No socket is lost and none appears: each either stays or is closed, exactly once. */
  lemma {:induction false} SurvivorsConserve(es: seq<Entry>, n: nat, v: Events)
    requires n <= |es| && AllFitEvents(es, v) && RealSockets(es)
    ensures multiset(Socks(es[..n])) == Accounted(es, n, v)
  {
    if n == 0 {
      NothingVisited(es, v);
    } else {
      SurvivorsConserve(es, n - 1, v);
      OneVisited(es, n - 1, v, Accounted(es, n - 1, v), Accounted(es, n, v));
      OneMoreSock(es, n - 1);
    }
  }

  lemma NothingVisited(es: seq<Entry>, v: Events)
    requires AllFitEvents(es, v)
    ensures Accounted(es, 0, v) == multiset{}
  {
  }

  /** A connection that stays is found behind exactly the earlier ones that stay. */
  lemma {:induction false} SurvivorAt(es: seq<Entry>, i: nat, n: nat, v: Events)
    requires i < n <= |es| && AllFitEvents(es, v) && v.Stays(es[i])
    ensures |Survivors(es, i, v)| < |Survivors(es, n, v)|
    ensures Survivors(es, n, v)[|Survivors(es, i, v)|] == v.Visited(es[i])
  {
    if i < n - 1 {
      SurvivorAt(es, i, n - 1, v);
    }
  }

  lemma {:induction false} SurvivorFrom(es: seq<Entry>, n: nat, v: Events, j: nat) returns (i: nat)
    requires n <= |es| && AllFitEvents(es, v) && j < |Survivors(es, n, v)|
    ensures i < n && v.Stays(es[i]) && Survivors(es, n, v)[j] == v.Visited(es[i])
    ensures |Survivors(es, i, v)| == j
  {
    if j < |Survivors(es, n - 1, v)| {
      i := SurvivorFrom(es, n - 1, v, j);
    } else {
      i := n - 1;
    }
  }

  lemma {:induction false} SurvivorsPrefix(es: seq<Entry>, more: seq<Entry>, n: nat, v: Events)
    requires n <= |es| && AllFitEvents(es + more, v)
    ensures AllFitEvents(es, v) && Survivors(es + more, n, v) == Survivors(es, n, v)
    ensures Closed(es + more, n, v) == Closed(es, n, v)
  {
    forall i | 0 <= i < |es| ensures v.Fit(es[i]) {
      assert (es + more)[i] == es[i];
    }
    if n > 0 {
      SurvivorsPrefix(es, more, n - 1, v);
    }
  }

  // ----- one round

  predicate Sound(w: World, listenfd: int) {
    && listenfd >= 0 && Distinct(w.es, listenfd) && RealSockets(w.es)
    && w.descriptors == {listenfd} + Members(Socks(w.es))
  }

  /** The connection accepted in a round is not touched in it. */
  lemma NewcomerUntouched(w: World, inp: Input, listenfd: int)
    requires Sound(w, listenfd) && Possible(w, inp, listenfd)
    ensures var v := Selected(w.es, inp, listenfd);
      && AllFitEvents(w.es, v)
      && RoundEntries(w.es, inp, listenfd) == Survivors(w.es, |w.es|, v) + Arrivals(inp, listenfd)
      && RoundClosed(w.es, inp, listenfd) == Refused(inp, listenfd) + Closed(w.es, |w.es|, v)
  {
    var v, new_ := Selected(w.es, inp, listenfd), Arrivals(inp, listenfd);
    SurvivorsPrefix(w.es, new_, |w.es|, v);
    if new_ != [] {
      var fd := inp.accept.fd;
      forall i | 0 <= i < |w.es| ensures w.es[i].sock != fd {
        assert w.es[i].sock == Socks(w.es)[i];
      }
      assert fd !in v.readfds && fd !in v.writefds;
      assert (w.es + new_)[|w.es|] == new_[0] && v.Visited(new_[0]) == new_[0];
    } else {
      assert w.es + new_ == w.es;
    }
  }

  lemma {:induction false} SeqCount(s: seq<int>, x: int)
    requires forall i, j :: 0 <= i < j < |s| ==> s[i] != s[j]
    ensures multiset(s)[x] <= 1
  {
    if s != [] {
      var n := |s| - 1;
      assert s == s[..n] + [s[n]];
      SeqCount(s[..n], x);
      if s[n] == x {
        assert x !in s[..n];
      }
    }
  }

  lemma CountedTwice(s: seq<int>, i: nat, j: nat)
    requires i < j < |s| && s[i] == s[j]
    ensures multiset(s)[s[i]] >= 2
  {
    assert s == s[..j] + s[j..];
    assert s[..j][i] == s[i] && s[j..][0] == s[i];
    assert s[i] in multiset(s[..j]) && s[i] in multiset(s[j..]);
  }

  /** What a round opens and closes: every descriptor that was open or is accepted is afterwards either
      a connection in the vector or closed, and closed only once. */
  lemma RoundConserves(w: World, inp: Input, listenfd: int)
    requires Sound(w, listenfd) && Possible(w, inp, listenfd)
    ensures multiset(Socks(w.es)) + multiset(Opened(inp, listenfd))
         == multiset(Socks(Next(w, inp, listenfd).es)) + multiset(RoundClosed(w.es, inp, listenfd))
  {
    var v, new_ := Selected(w.es, inp, listenfd), Arrivals(inp, listenfd);
    NewcomerUntouched(w, inp, listenfd);
    SurvivorsConserve(w.es, |w.es|, v);
    assert w.es[..|w.es|] == w.es;
    SocksAppend(Survivors(w.es, |w.es|, v), new_);
    OpenedOrRefused(inp, listenfd);
    assert multiset(RoundClosed(w.es, inp, listenfd))
        == multiset(Refused(inp, listenfd)) + multiset(Closed(w.es, |w.es|, v));
  }

  lemma OpenedOrRefused(inp: Input, listenfd: int)
    ensures multiset(Opened(inp, listenfd)) == multiset(Socks(Arrivals(inp, listenfd))) + multiset(Refused(inp, listenfd))
  {
    if Accepts(inp, listenfd) {
      SocksOne(Entry(inp.accept.fd, ACCEPTED));
    }
  }

  lemma Conserved(before: multiset<int>, arrived: multiset<int>, after: multiset<int>, gone: multiset<int>, x: int)
    requires before + arrived == after + gone && before[x] <= 1 && arrived[x] <= 1 && !(x in before && x in arrived)
    ensures after[x] <= 1 && gone[x] <= 1 && !(x in after && x in gone)
    ensures x in after <==> (x in before || x in arrived) && x !in gone
  {
    assert (before + arrived)[x] == (after + gone)[x];
  }

  lemma RoundCounts(w: World, inp: Input, listenfd: int, fd: int)
    requires Sound(w, listenfd) && Possible(w, inp, listenfd)
    ensures var new_, closed := multiset(Socks(Next(w, inp, listenfd).es)), multiset(RoundClosed(w.es, inp, listenfd));
      && new_[fd] <= 1 && closed[fd] <= 1
      && (fd in new_ <==> (fd in multiset(Socks(w.es)) || fd in multiset(Opened(inp, listenfd))) && fd !in closed)
  {
    RoundConserves(w, inp, listenfd);
    SeqCount(Socks(w.es), fd);
    SeqCount(Opened(inp, listenfd), fd);
    OpenedIsFresh(w, inp, listenfd, fd);
    Conserved(multiset(Socks(w.es)), multiset(Opened(inp, listenfd)),
              multiset(Socks(Next(w, inp, listenfd).es)), multiset(RoundClosed(w.es, inp, listenfd)), fd);
  }

  lemma OpenedIsFresh(w: World, inp: Input, listenfd: int, fd: int)
    requires Sound(w, listenfd) && Possible(w, inp, listenfd)
    ensures !(fd in multiset(Socks(w.es)) && fd in multiset(Opened(inp, listenfd)))
    ensures fd in multiset(Opened(inp, listenfd)) ==> fd >= 0 && fd != listenfd
  {
    MembersAreCounted(Socks(w.es));
    MembersAreCounted(Opened(inp, listenfd));
  }

  lemma DistinctAfter(s: seq<int>)
    requires forall x :: multiset(s)[x] <= 1
    ensures forall i, j :: 0 <= i < j < |s| ==> s[i] != s[j]
  {
    forall i, j | 0 <= i < j < |s| ensures s[i] != s[j] {
      if s[i] == s[j] {
        CountedTwice(s, i, j);
      }
    }
  }

  lemma SockMember(es: seq<Entry>, i: nat)
    requires i < |es|
    ensures es[i].sock in multiset(Socks(es)) && es[i].sock in Members(Socks(es))
  {
    assert Socks(es)[i] == es[i].sock;
  }

  lemma MembersAreCounted(s: seq<int>)
    ensures forall x :: x in Members(s) <==> x in multiset(s)
  {
  }

  lemma SocksFit(w: World, inp: Input, listenfd: int)
    requires Sound(w, listenfd) && Possible(w, inp, listenfd)
    ensures var es := Next(w, inp, listenfd).es; Distinct(es, listenfd) && RealSockets(es)
  {
    var es := Next(w, inp, listenfd).es;
    forall fd ensures multiset(Socks(es))[fd] <= 1 {
      RoundCounts(w, inp, listenfd, fd);
    }
    DistinctAfter(Socks(es));
    forall i, j | 0 <= i < j < |es| ensures es[i].sock != es[j].sock {
      assert Socks(es)[i] != Socks(es)[j];
    }
    forall i | 0 <= i < |es| ensures es[i].sock >= 0 && es[i].sock != listenfd {
      var fd := es[i].sock;
      SockMember(es, i);
      RoundCounts(w, inp, listenfd, fd);
      OpenedIsFresh(w, inp, listenfd, fd);
      if fd in multiset(Socks(w.es)) {
        var k :| 0 <= k < |w.es| && Socks(w.es)[k] == fd;
        assert w.es[k].sock == fd;
      }
    }
  }

  lemma DescriptorsFit(w: World, inp: Input, listenfd: int)
    requires Sound(w, listenfd) && Possible(w, inp, listenfd)
    ensures var w' := Next(w, inp, listenfd); w'.descriptors == {listenfd} + Members(Socks(w'.es))
  {
    var w', closed := Next(w, inp, listenfd), RoundClosed(w.es, inp, listenfd);
    MembersAreCounted(Socks(w.es));
    MembersAreCounted(Socks(w'.es));
    MembersAreCounted(Opened(inp, listenfd));
    MembersAreCounted(closed);
    forall fd ensures fd in w'.descriptors <==> fd in {listenfd} + Members(Socks(w'.es)) {
      RoundCounts(w, inp, listenfd, fd);
      if fd == listenfd && fd in closed {
        ListenerNotClosed(w, inp, listenfd);
      }
    }
  }

  lemma ListenerNotClosed(w: World, inp: Input, listenfd: int)
    requires Sound(w, listenfd) && Possible(w, inp, listenfd)
    ensures listenfd !in multiset(RoundClosed(w.es, inp, listenfd))
  {
    RoundConserves(w, inp, listenfd);
    OpenedIsFresh(w, inp, listenfd, listenfd);
    var gone, arrived := multiset(RoundClosed(w.es, inp, listenfd)), multiset(Opened(inp, listenfd));
    var socks := multiset(Socks(w.es));
    forall k | 0 <= k < |w.es| ensures Socks(w.es)[k] != listenfd {
      assert w.es[k].sock != listenfd;
    }
    assert listenfd in gone ==> listenfd in socks + arrived;
  }

  lemma StepKeepsSound(w: World, inp: Input, listenfd: int)
    requires Sound(w, listenfd) && Possible(w, inp, listenfd)
    ensures Sound(Next(w, inp, listenfd), listenfd)
  {
    SocksFit(w, inp, listenfd);
    DescriptorsFit(w, inp, listenfd);
  }

  /** In every run the sockets in the vector are pairwise distinct and, with the listening socket, are
      exactly the open descriptors. */
  lemma {:induction false} SoundAlways(ws: seq<World>, inps: seq<Input>, listenfd: int, k: nat)
    requires Run(ws, inps, listenfd) && k < |ws|
    ensures Sound(ws[k], listenfd)
  {
    if k > 0 {
      SoundAlways(ws, inps, listenfd, k - 1);
      StepKeepsSound(ws[k - 1], inps[k - 1], listenfd);
    }
  }
}
