/** One worker of the server, with the counter that it updates: its handlers are the protocol's steps. */
module PoolServer {
  import opened PoolProtocol

  /** What becomes of a connection: whether the welcome can be written, and what is read. */
  datatype Request = Malformed | Get | Post | Other

  datatype Client = Client(conn: nat, welcome: bool, request: Request)

  /** The protocol's step that ends the counted part of a handler. */
  function Outcome(c: Client, w: nat): Action {
    if !c.welcome then WelcomeFails(w) else if c.request.Malformed? then BadRequest(w) else Served(w)
  }

  /** A handler from its start to its end, when no other goroutine runs in between. */
  function Handled(s: State, w: nat, c: Client): (s': State)
    requires !s.acceptor.Panicked? && !s.stage.Stopped? && w < |s.workers| && s.workers[w] == Got(c.conn)
  {
    Next(Next(Next(s, CountIn(w)), Outcome(c, w)), CloseConn(w))
  }

  /** Its effect: the connection is closed, and the count is back where it was, or one higher after a
      malformed request. */
  lemma HandledEffect(s: State, w: nat, c: Client)
    requires !s.acceptor.Panicked? && !s.stage.Stopped? && w < |s.workers| && s.workers[w] == Got(c.conn)
    ensures var s' := Handled(s, w, c);
      && s'.workers == s.workers[w := Idle] && s'.closed == s.closed + [c.conn]
      && s'.count == s.count + One(c.welcome && c.request.Malformed?)
  {
  }

  function Drift(cs: seq<Client>): nat {
    if cs == [] then 0
    else Drift(cs[..|cs| - 1]) + One(cs[|cs| - 1].welcome && cs[|cs| - 1].request.Malformed?)
  }

  function Conns(cs: seq<Client>): seq<nat> {
    seq(|cs|, i requires 0 <= i < |cs| => cs[i].conn)
  }

  class Server {
    var connectionCount: int
    // Every Close so far.
    var closed: seq<nat>

    constructor ()
      ensures connectionCount == 0 && closed == []
    {
      connectionCount, closed := 0, [];
    }

    method Add(delta: int) returns (value: int)
      modifies `connectionCount
      ensures value == connectionCount == old(connectionCount) + delta
    {
      connectionCount := connectionCount + delta;
      value := connectionCount;
    }

    // The deferred Close.
    method Close(conn: nat)
      modifies `closed
      ensures closed == old(closed) + [conn]
    {
      closed := closed + [conn];
    }

    /** handleConnection does what the protocol's steps do. */
    method HandleConnection(c: Client, ghost s: State, ghost w: nat)
      requires !s.acceptor.Panicked? && !s.stage.Stopped? && w < |s.workers| && s.workers[w] == Got(c.conn)
      requires connectionCount == s.count && closed == s.closed
      modifies this
      ensures connectionCount == Handled(s, w, c).count && closed == Handled(s, w, c).closed
    {
      HandledEffect(s, w, c);
      var currentConn := Add(1);
      if !c.welcome {
        var _ := Add(-1);
        Close(c.conn);
        return;
      }
      if c.request.Malformed? {
        Close(c.conn);
        return;
      }
      var remainingConn := Add(-1);
      Close(c.conn);
    }

    /** worker, over the connections that it takes from the channel. */
    method Worker(cs: seq<Client>, ghost s: State, ghost w: nat)
      requires !s.acceptor.Panicked? && !s.stage.Stopped? && w < |s.workers|
      requires connectionCount == s.count && closed == s.closed
      modifies this
      ensures closed == old(closed) + Conns(cs) && connectionCount == old(connectionCount) + Drift(cs)
    {
      for i := 0 to |cs|
        invariant closed == old(closed) + Conns(cs[..i])
        invariant connectionCount == old(connectionCount) + Drift(cs[..i])
      {
        ghost var t := s.(workers := s.workers[w := Got(cs[i].conn)], count := connectionCount, closed := closed);
        HandledEffect(t, w, cs[i]);
        HandleConnection(cs[i], t, w);
        assert cs[..i + 1][..i] == cs[..i];
        assert Conns(cs[..i + 1]) == Conns(cs[..i]) + [cs[i].conn];
      }
      assert cs[..|cs|] == cs;
    }
  }
}
