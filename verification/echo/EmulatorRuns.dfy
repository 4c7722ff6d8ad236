/** Runs of the multi-client emulator, round after round. */
module EmulatorRuns {
  import opened EchoTypes
  import opened EchoClient
  import opened EchoEmulator

  // The array, and every close so far.
  datatype World = World(es: seq<Entry>, closed: seq<int>)

  function Started(sock: int, numRepeats: nat): Entry {
    Entry(sock, Client(if sock == -1 then Dead else Connecting, [], [], 0, InitialRepeats(numRepeats)))
  }

  /** The array after the connection attempts: a socket of its own each, or -1. */
  predicate Start(w: World, numRepeats: nat) {
    && w.closed == [] && Apart(w.es)
    && forall i :: 0 <= i < |w.es| ==> w.es[i] == Started(w.es[i].sock, numRepeats)
  }

  predicate Possible(w: World, ms: seq<seq<Byte>>, inp: Input) {
    Alive(w.es) > 0 && AllFit(w.es, ms, Selected(w.es, inp))
  }

  function Next(w: World, ms: seq<seq<Byte>>, inp: Input): World
    requires Possible(w, ms, inp)
  {
    var v := Selected(w.es, inp);
    World(Pass(w.es, ms, v), w.closed + Closed(w.es, ms, |w.es|, v))
  }

  ghost predicate Run(ws: seq<World>, inps: seq<Input>, ms: seq<seq<Byte>>, numRepeats: nat) {
    && |ws| == |inps| + 1 && Start(ws[0], numRepeats)
    && forall k :: 0 <= k < |inps| ==> Possible(ws[k], ms, inps[k]) && ws[k + 1] == Next(ws[k], ms, inps[k])
  }

  // ----- sockets

  lemma PassKeepsApart(es: seq<Entry>, ms: seq<seq<Byte>>, v: Events)
    requires Apart(es) && AllFit(es, ms, v)
    ensures Apart(Pass(es, ms, v))
  {
    var after := Pass(es, ms, v);
    assert forall i :: 0 <= i < |es| && Live(after[i]) ==> Live(es[i]) && after[i].sock == es[i].sock;
  }

  lemma {:induction false} ApartAlways(ws: seq<World>, inps: seq<Input>, ms: seq<seq<Byte>>, numRepeats: nat, k: nat)
    requires Run(ws, inps, ms, numRepeats) && k < |ws|
    ensures Apart(ws[k].es)
  {
    if k > 0 {
      ApartAlways(ws, inps, ms, numRepeats, k - 1);
      PassKeepsApart(ws[k - 1].es, ms, Selected(ws[k - 1].es, inps[k - 1]));
    }
  }

  // The socket of a client, on the list if it is `there`.
  function One(sock: int, there: bool): seq<int> {
    if there then [sock] else []
  }

  lemma VisitedSocket(e: Entry, m: seq<Byte>, v: Events)
    requires Fit(e, m, v)
    ensures Live(e) <==> Live(Visited(e, m, v)) || Dies(e, m, v)
    ensures Live(Visited(e, m, v)) ==> Visited(e, m, v).sock == e.sock && !Dies(e, m, v)
  {
  }

  lemma AddOne(a: seq<int>, b: seq<int>, c: seq<int>, sock: int, stays: bool, closes: bool)
    requires multiset(a) == multiset(b) + multiset(c) && !(stays && closes)
    ensures multiset(a + One(sock, stays || closes)) == multiset(b + One(sock, stays)) + multiset(c + One(sock, closes))
  {
  }

  /** The live sockets split into those that stay live and those closed. */
  lemma {:induction false} PassConserves(es: seq<Entry>, ms: seq<seq<Byte>>, n: nat, v: Events)
    requires n <= |es| && AllFit(es, ms, v)
    ensures multiset(LiveSocks(es, n)) == multiset(LiveSocks(Pass(es, ms, v), n)) + multiset(Closed(es, ms, n, v))
  {
    if n > 0 {
      PassConserves(es, ms, n - 1, v);
      var e, m, after := es[n - 1], ms[n - 1], Pass(es, ms, v);
      AddOne(LiveSocks(es, n - 1), LiveSocks(after, n - 1), Closed(es, ms, n - 1, v), e.sock,
             Live(Visited(e, m, v)), Dies(e, m, v));
      VisitedSocket(e, m, v);
      assert LiveSocks(es, n) == LiveSocks(es, n - 1) + One(e.sock, Live(e));
      assert LiveSocks(after, n) == LiveSocks(after, n - 1) + One(e.sock, Live(after[n - 1]));
    }
  }

  lemma StepConserves(w: World, ms: seq<seq<Byte>>, inp: Input)
    requires Possible(w, ms, inp)
    ensures var w' := Next(w, ms, inp);
      multiset(w'.closed) + multiset(LiveSocks(w'.es, |w'.es|)) == multiset(w.closed) + multiset(LiveSocks(w.es, |w.es|))
  {
    var v := Selected(w.es, inp);
    PassConserves(w.es, ms, |w.es|, v);
    assert multiset(w.closed + Closed(w.es, ms, |w.es|, v)) == multiset(w.closed) + multiset(Closed(w.es, ms, |w.es|, v));
  }

  /** In every run each socket that was connected is either that of a live client or has been closed,
      and closed once. */
  lemma {:induction false} SocketsConserved(ws: seq<World>, inps: seq<Input>, ms: seq<seq<Byte>>, numRepeats: nat, k: nat)
    requires Run(ws, inps, ms, numRepeats) && k < |ws|
    ensures |ws[k].es| == |ws[0].es|
    ensures multiset(ws[k].closed) + multiset(LiveSocks(ws[k].es, |ws[k].es|))
         == multiset(LiveSocks(ws[0].es, |ws[0].es|))
  {
    if k > 0 {
      SocketsConserved(ws, inps, ms, numRepeats, k - 1);
      StepConserves(ws[k - 1], ms, inps[k - 1]);
    }
  }

  lemma {:induction false} NoLiveSocks(es: seq<Entry>, n: nat)
    requires n <= |es|
    ensures LiveSocks(es, n) == [] <==> forall i :: 0 <= i < n ==> !Live(es[i])
  {
    if n > 0 {
      NoLiveSocks(es, n - 1);
    }
  }

  /** The event loop is left exactly when every client is dead; then every connected socket has been
      closed exactly once, and no entry holds a socket that the clean-up could close again. */
  lemma LoopEndsExactly(ws: seq<World>, inps: seq<Input>, ms: seq<seq<Byte>>, numRepeats: nat, k: nat)
    requires Run(ws, inps, ms, numRepeats) && k < |ws|
    ensures Alive(ws[k].es) == 0 <==> forall i :: 0 <= i < |ws[k].es| ==> ws[k].es[i].client.state == Dead
    ensures Alive(ws[k].es) == 0 ==>
      && multiset(ws[k].closed) == multiset(LiveSocks(ws[0].es, |ws[0].es|))
      && forall i :: 0 <= i < |ws[k].es| ==> ws[k].es[i].sock == -1
  {
    var es := ws[k].es;
    NoLiveSocks(es, |es|);
    assert forall i :: 0 <= i < |es| ==> (Live(es[i]) <==> es[i].client.state != Dead);
    SocketsConserved(ws, inps, ms, numRepeats, k);
    ApartAlways(ws, inps, ms, numRepeats, k);
  }
}
