/** The multi-client emulator: the event loop over an array of client connections, and its count of the
    clients that are still alive. */
module EchoEmulator {
  import opened EchoTypes
  import opened EchoClient

  /** An entry of the array, as a value. */
  datatype Entry = Entry(sock: int, client: Client)

  // What select leaves in the two descriptor sets, and what the kernel answers on each socket.
  datatype Events = Events(rset: set<int>, wset: set<int>, answers: int -> ClientAnswer)

  predicate Live(e: Entry) {
    !e.client.state.Dead?
  }

  predicate Ready(e: Entry, v: Events) {
    if Writes(e.client) then e.sock in v.wset else e.client.state.ClientReceiving? && e.sock in v.rset
  }

  predicate Fit(e: Entry, m: seq<Byte>, v: Events) {
    Ready(e, v) ==> ClientFits(e.client, m, v.answers(e.sock))
  }

  function Visited(e: Entry, m: seq<Byte>, v: Events): Entry
    requires Fit(e, m, v)
  {
    var c := if Ready(e, v) then AfterClient(e.client, m, v.answers(e.sock)) else e.client;
    Entry(if Live(e) && c.state.Dead? then -1 else e.sock, c)
  }

  predicate AllFit(es: seq<Entry>, ms: seq<seq<Byte>>, v: Events) {
    |ms| == |es| && forall i :: 0 <= i < |es| ==> Fit(es[i], ms[i], v)
  }

  /** The array after a pass: each client visited once. */
  function Pass(es: seq<Entry>, ms: seq<seq<Byte>>, v: Events): (after: seq<Entry>)
    requires AllFit(es, ms, v)
    ensures |after| == |es|
    ensures forall i :: 0 <= i < |es| ==> after[i] == Visited(es[i], ms[i], v)
  {
    seq(|es|, i requires 0 <= i < |es| => Visited(es[i], ms[i], v))
  }

  predicate Dies(e: Entry, m: seq<Byte>, v: Events)
    requires Fit(e, m, v)
  {
    Live(e) && !Live(Visited(e, m, v))
  }

  /** The sockets that the pass over the first `n` clients closes, in order. */
  function Closed(es: seq<Entry>, ms: seq<seq<Byte>>, n: nat, v: Events): seq<int>
    requires n <= |es| && AllFit(es, ms, v)
  {
    if n == 0 then []
    else Closed(es, ms, n - 1, v) + if Dies(es[n - 1], ms[n - 1], v) then [es[n - 1].sock] else []
  }

  /** The sockets of the live clients among the first `n`. */
  function LiveSocks(es: seq<Entry>, n: nat): seq<int>
    requires n <= |es|
  {
    if n == 0 then [] else LiveSocks(es, n - 1) + if Live(es[n - 1]) then [es[n - 1].sock] else []
  }

  function Alive(es: seq<Entry>): nat {
    |LiveSocks(es, |es|)|
  }

  /** Live clients have sockets of their own, and dead ones none. */
  predicate Apart(es: seq<Entry>) {
    && (forall i, j :: 0 <= i < j < |es| && Live(es[i]) && Live(es[j]) ==> es[i].sock != es[j].sock)
    && (forall i :: 0 <= i < |es| ==> if Live(es[i]) then es[i].sock >= 0 else es[i].sock == -1)
  }

  /** The sockets watched for writing, and for reading. */
  function WriteSet(es: seq<Entry>): set<int> {
    set i | 0 <= i < |es| && Writes(es[i].client) :: es[i].sock
  }

  function ReadSet(es: seq<Entry>): set<int> {
    set i | 0 <= i < |es| && es[i].client.state.ClientReceiving? :: es[i].sock
  }

  /** What the outside does to one round: what is ready, and what the calls return. */
  datatype Input = Input(ready: set<int>, answers: int -> ClientAnswer)

  function Selected(es: seq<Entry>, inp: Input): Events {
    Events(ReadSet(es) * inp.ready, WriteSet(es) * inp.ready, inp.answers)
  }

  lemma SelectedApart(es: seq<Entry>, inp: Input)
    requires Apart(es)
    ensures Selected(es, inp).rset !! Selected(es, inp).wset
  {
  }

  /** select reports a live client in the set that its state asks for, if and only if its socket is ready. */
  lemma ReadyExactly(es: seq<Entry>, inp: Input, i: nat)
    requires Apart(es) && i < |es| && Live(es[i])
    ensures Ready(es[i], Selected(es, inp)) <==> es[i].sock in inp.ready
  {
    assert Writes(es[i].client) ==> es[i].sock in WriteSet(es);
    assert es[i].client.state.ClientReceiving? ==> es[i].sock in ReadSet(es);
  }

  // ----- the round, in place

  ghost predicate Separate(cs: seq<ClientConnection>) {
    forall i, j :: 0 <= i < j < |cs| ==> cs[i] != cs[j] && cs[i].buffer != cs[j].buffer
  }

  ghost predicate Shows(cs: seq<ClientConnection>, ms: seq<seq<Byte>>, es: seq<Entry>)
    reads cs, set c | c in cs :: c.buffer
  {
    |cs| == |es| == |ms| &&
    forall i :: 0 <= i < |cs| ==> ShowsOne(cs[i], ms[i], es[i])
  }

  ghost predicate ShowsOne(c: ClientConnection, m: seq<Byte>, e: Entry)
    reads c, c.buffer
  {
    c.Valid(m) && e == Entry(c.sock, c.View(m))
  }

  /** One visit of the event loop. */
  method Handle(c: ClientConnection, m: seq<Byte>, v: Events, ghost e: Entry) returns (keep: bool)
    requires ShowsOne(c, m, e) && Live(e) && Fit(e, m, v)
    requires !(c.sock in v.rset && c.sock in v.wset)
    requires c.sock in v.wset ==> Writes(e.client)
    requires c.sock in v.rset ==> e.client.state.ClientReceiving?
    modifies c, c.buffer
    ensures c.sock == e.sock && keep == !Dies(e, m, v)
    ensures if keep then ShowsOne(c, m, Visited(e, m, v)) else Killed(Visited(e, m, v).client) == Visited(e, m, v).client
    ensures !keep ==> c.expectedSize == Visited(e, m, v).client.expectedSize
    ensures !keep ==> c.repeatsLeft == Visited(e, m, v).client.repeatsLeft
  {
    keep := true;
    if c.sock in v.wset {
      keep := c.ClientProcessSend(m, v.answers(c.sock).connect, v.answers(c.sock).send);
    } else if c.sock in v.rset {
      var mismatch;
      keep, mismatch := c.ClientProcessRecv(m, v.answers(c.sock).recv);
    }
  }

  lemma SelectedMeans(es: seq<Entry>, inp: Input, i: nat)
    requires Apart(es) && i < |es| && Live(es[i])
    ensures es[i].sock in Selected(es, inp).wset ==> Writes(es[i].client)
    ensures es[i].sock in Selected(es, inp).rset ==> es[i].client.state.ClientReceiving?
  {
  }

  // The array with its first `n` clients visited.
  function Partly(es: seq<Entry>, ms: seq<seq<Byte>>, n: nat, v: Events): (r: seq<Entry>)
    requires n <= |es| && AllFit(es, ms, v)
    ensures |r| == |es|
  {
    Pass(es, ms, v)[..n] + es[n..]
  }

  lemma PartlyNext(es: seq<Entry>, ms: seq<seq<Byte>>, n: nat, v: Events)
    requires n < |es| && AllFit(es, ms, v)
    ensures Partly(es, ms, n, v)[n] == es[n]
    ensures Partly(es, ms, n + 1, v) == Partly(es, ms, n, v)[n := Visited(es[n], ms[n], v)]
  {
  }

  lemma PartlyEnds(es: seq<Entry>, ms: seq<seq<Byte>>, v: Events)
    requires AllFit(es, ms, v)
    ensures Partly(es, ms, 0, v) == es && Partly(es, ms, |es|, v) == Pass(es, ms, v)
  {
  }

  /** Every death takes one off the live. */
  lemma {:induction false} DeathsCount(es: seq<Entry>, ms: seq<seq<Byte>>, n: nat, v: Events)
    requires n <= |es| && AllFit(es, ms, v)
    ensures |LiveSocks(Pass(es, ms, v), n)| + |Closed(es, ms, n, v)| == |LiveSocks(es, n)|
  {
    if n > 0 {
      DeathsCount(es, ms, n - 1, v);
      assert Pass(es, ms, v)[n - 1] == Visited(es[n - 1], ms[n - 1], v);
    }
  }

  lemma AppendClosed(before: seq<int>, es: seq<Entry>, ms: seq<seq<Byte>>, n: nat, v: Events)
    requires n < |es| && AllFit(es, ms, v)
    ensures before + Closed(es, ms, n + 1, v)
         == before + Closed(es, ms, n, v) + if Dies(es[n], ms[n], v) then [es[n].sock] else []
  {
  }

  class Emulator {
    const connections: seq<ClientConnection>
    var clientsAlive: nat
    // Every close so far.
    var closed: seq<int>

    /** main up to the event loop: `connections` are made, and those that failed are counted out. */
    constructor (connections: seq<ClientConnection>, ghost ms: seq<seq<Byte>>, ghost es: seq<Entry>)
      requires Shows(connections, ms, es)
      ensures this.connections == connections && closed == []
      ensures clientsAlive == Alive(es)
    {
      var connErrors := 0;
      for i := 0 to |connections|
        invariant i <= |es| && connErrors + |LiveSocks(es, i)| == i
      {
        assert ShowsOne(connections[i], ms[i], es[i]);
        if connections[i].state == Dead {
          connErrors := connErrors + 1;
        }
      }
      this.connections := connections;
      clientsAlive := |connections| - connErrors;
      closed := [];
    }

    /** The registration loop. */
    method Register(ghost ms: seq<seq<Byte>>, ghost es: seq<Entry>) returns (rset: set<int>, wset: set<int>)
      requires Shows(connections, ms, es)
      ensures rset == ReadSet(es) && wset == WriteSet(es)
    {
      rset, wset := {}, {};
      for i := 0 to |connections|
        invariant i <= |es| && rset == ReadSet(es[..i]) && wset == WriteSet(es[..i])
      {
        var c := connections[i];
        assert ShowsOne(c, ms[i], es[i]);
        WatchOneMore(es, i);
        match c.state
        case ClientSending => wset := wset + {c.sock};
        case Connecting => wset := wset + {c.sock};
        case ClientReceiving => rset := rset + {c.sock};
        case Dead =>
      }
      assert es[..|connections|] == es;
    }

    /** One visit of the event loop to entry `i`; counts the finished. */
    method Visit(i: nat, m: seq<Byte>, v: Events, finishedClients: nat, ghost ms: seq<seq<Byte>>, ghost es: seq<Entry>)
      returns (finishedClients': nat)
      requires Shows(connections, ms, es) && Separate(connections) && i < |connections|
      requires m == ms[i] && Fit(es[i], m, v) && v.rset !! v.wset
      requires Live(es[i]) ==>
        && (es[i].sock in v.wset ==> Writes(es[i].client))
        && (es[i].sock in v.rset ==> es[i].client.state.ClientReceiving?)
      modifies `closed, connections[i], connections[i].buffer
      ensures Shows(connections, ms, es[i := Visited(es[i], m, v)])
      ensures closed == old(closed) + if Dies(es[i], m, v) then [es[i].sock] else []
      ensures finishedClients' == finishedClients + if Dies(es[i], m, v) then 1 else 0
    {
      finishedClients' := finishedClients;
      var c := connections[i];
      assert ShowsOne(c, m, es[i]);
      if c.state == Dead {
        assert es[i := es[i]] == es;
        return;
      }
      var keep := Handle(c, m, v, es[i]);
      if !keep {
        closed := closed + [c.sock];
        c.sock := -1;
        c.state := Dead;
        finishedClients' := finishedClients + 1;
      }
      assert ShowsOne(c, m, Visited(es[i], m, v));
    }

    // In the middle of the pass, `before` having been closed in front of it.
    ghost predicate Passing(i: nat, finishedClients: nat, ms: seq<seq<Byte>>, es: seq<Entry>, v: Events, before: seq<int>)
      reads this, connections, set c | c in connections :: c.buffer
    {
      && i <= |es| && AllFit(es, ms, v)
      && Shows(connections, ms, Partly(es, ms, i, v))
      && closed == before + Closed(es, ms, i, v)
      && finishedClients == |Closed(es, ms, i, v)|
    }

    method Turn(i: nat, finishedClients: nat, ms: seq<seq<Byte>>, v: Events, ghost es: seq<Entry>, ghost inp: Input,
                ghost before: seq<int>)
      returns (finishedClients': nat)
      requires Passing(i, finishedClients, ms, es, v, before) && i < |es| && Separate(connections)
      requires Apart(es) && v == Selected(es, inp)
      modifies `closed, connections, set c | c in connections :: c.buffer
      ensures Passing(i + 1, finishedClients', ms, es, v, before)
    {
      PartlyNext(es, ms, i, v);
      SelectedApart(es, inp);
      if Live(es[i]) {
        SelectedMeans(es, inp, i);
      }
      finishedClients' := Visit(i, ms[i], v, finishedClients, ms, Partly(es, ms, i, v));
      AppendClosed(before, es, ms, i, v);
    }

    lemma PassBegins(ms: seq<seq<Byte>>, es: seq<Entry>, v: Events)
      requires Shows(connections, ms, es) && AllFit(es, ms, v)
      ensures Passing(0, 0, ms, es, v, closed)
    {
      PartlyEnds(es, ms, v);
    }

    lemma PassEnds(n: nat, finishedClients: nat, ms: seq<seq<Byte>>, es: seq<Entry>, v: Events, before: seq<int>)
      requires Passing(n, finishedClients, ms, es, v, before) && n == |es|
      ensures Shows(connections, ms, Pass(es, ms, v))
      ensures closed == before + Closed(es, ms, |es|, v) && finishedClients == |Closed(es, ms, |es|, v)|
    {
      PartlyEnds(es, ms, v);
    }

    /** The pass over the array; the closed sockets are counted. */
    method HandleEvents(ms: seq<seq<Byte>>, v: Events, ghost es: seq<Entry>, ghost inp: Input)
      returns (finishedClients: nat)
      requires Shows(connections, ms, es) && Separate(connections) && Apart(es)
      requires AllFit(es, ms, v) && v == Selected(es, inp)
      modifies `closed, connections, set c | c in connections :: c.buffer
      ensures Shows(connections, ms, Pass(es, ms, v))
      ensures closed == old(closed) + Closed(es, ms, |es|, v) && finishedClients == |Closed(es, ms, |es|, v)|
    {
      PassBegins(ms, es, v);
      finishedClients := 0;
      for i := 0 to |connections|
        invariant Passing(i, finishedClients, ms, es, v, old(closed))
      {
        finishedClients := Turn(i, finishedClients, ms, v, es, inp, old(closed));
      }
      PassEnds(|connections|, finishedClients, ms, es, v, old(closed));
    }

    /** One round of the event loop. */
    method Round(inp: Input, ms: seq<seq<Byte>>, ghost es: seq<Entry>)
      requires Shows(connections, ms, es) && Separate(connections) && Apart(es)
      requires AllFit(es, ms, Selected(es, inp)) && clientsAlive == Alive(es)
      modifies this, connections, set c | c in connections :: c.buffer
      ensures Shows(connections, ms, Pass(es, ms, Selected(es, inp)))
      ensures clientsAlive == Alive(Pass(es, ms, Selected(es, inp)))
      ensures closed == old(closed) + Closed(es, ms, |es|, Selected(es, inp))
    {
      var rset, wset := Register(ms, es);
      var v := Events(rset * inp.ready, wset * inp.ready, inp.answers);
      var finishedClients := HandleEvents(ms, v, es, inp);
      DeathsCount(es, ms, |es|, v);
      clientsAlive := clientsAlive - finishedClients;
    }
  }

  lemma WatchOneMore(es: seq<Entry>, i: nat)
    requires i < |es|
    ensures WriteSet(es[..i + 1]) == WriteSet(es[..i]) + if Writes(es[i].client) then {es[i].sock} else {}
    ensures ReadSet(es[..i + 1]) == ReadSet(es[..i]) + if es[i].client.state.ClientReceiving? then {es[i].sock} else {}
  {
    assert es[..i + 1] == es[..i] + [es[i]];
  }
}
