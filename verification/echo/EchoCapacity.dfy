/** The same system over channels of bounded size, without I/O errors. The client reads nothing until
    its whole message is sent; whether that can block depends on the capacities alone. */
module EchoCapacity {
  import opened EchoTypes
  import opened EchoSystem

  /** A byte-moving action for which the channels have room; `c1` and `c2` are what the channels to
      and from the server hold. */
  predicate Permitted(s: System, m: seq<Byte>, a: Action, c1: nat, c2: nat) {
    && Enabled(s, m, a)
    && match a
       case ClientSend(n) => n > 0 && |s.up| + n <= c1
       case ClientRecv(n) => true
       case ServerRecv(n) => true
       case ServerSend(n) => n > 0 && |s.down| + n <= c2
       case ClientFails => false
       case ServerFails => false
  }

  ghost predicate BoundedRun(m: seq<Byte>, numRepeats: nat, c1: nat, c2: nat, ss: seq<System>, acts: seq<Action>) {
    && Run(m, numRepeats, ss, acts)
    && forall k :: 0 <= k < |acts| ==> Permitted(ss[k], m, acts[k], c1, c2)
  }

  ghost predicate Stuck(s: System, m: seq<Byte>, c1: nat, c2: nat) {
    s.ended == Running && forall a :: !Permitted(s, m, a, c1, c2)
  }

  // ----- enough room

  // Nobody has failed: what the invariant says in a run without errors.
  predicate Healthy(s: System, m: seq<Byte>, repeats: nat) {
    Invariant(s, m, repeats) && s.serverOpen && s.ended != Failed
  }

  lemma {:induction false} HealthyAlways(m: seq<Byte>, numRepeats: nat, c1: nat, c2: nat,
                                         ss: seq<System>, acts: seq<Action>, k: nat)
    requires m != [] && BoundedRun(m, numRepeats, c1, c2, ss, acts) && k < |ss|
    ensures Healthy(ss[k], m, InitialRepeats(numRepeats))
  {
    InvariantAlways(m, numRepeats, ss, acts, k);
    if k > 0 {
      HealthyAlways(m, numRepeats, c1, c2, ss, acts, k - 1);
    }
  }

  lemma ServerCanMove(s: System, m: seq<Byte>, c1: nat, c2: nat) returns (a: Action)
    requires ValidConn(s.server) && s.serverOpen
    requires s.server.state == Receiving ==> s.up != []
    requires s.server.state == Sending ==> |s.down| < c2
    ensures Permitted(s, m, a, c1, c2)
  {
    a := if s.server.state == Receiving then ServerRecv(1) else ServerSend(1);
  }

  /** While the client is not done, some byte can move. */
  lemma SomethingMoves(s: System, m: seq<Byte>, repeats: nat, c1: nat, c2: nat) returns (a: Action)
    requires m != [] && c1 >= 1 && c2 >= 1 && |m| <= c1 + c2 + 1
    requires Healthy(s, m, repeats) && s.ended == Running
    ensures Permitted(s, m, a, c1, c2)
  {
    assert |s.received| + |UnderWay(s)| == |s.sent|;
    match s.client.state
    case Connecting =>
      a := ClientSend(1);
    case ClientSending =>
      if |s.up| < c1 {
        a := ClientSend(1);
      } else {
        a := ServerCanMove(s, m, c1, c2);
      }
    case ClientReceiving =>
      if s.down != [] {
        a := ClientRecv(1);
      } else {
        a := ServerCanMove(s, m, c1, c2);
      }
    case Dead =>
  }

  // ----- every run is finite

  /** Bytes still to be moved, each counted once for every hop it has left. */
  function Hops(s: System, m: seq<Byte>): nat {
    4 * |m| * s.client.repeatsLeft
    + (match s.client.state case Connecting => 4 * |m| case ClientSending => 4 * |s.client.rest| case _ => 0)
    + 3 * |s.up| + 2 * |s.server.pending| + |s.down|
  }

  lemma MovingLowersHops(s: System, m: seq<Byte>, repeats: nat, a: Action, c1: nat, c2: nat)
    requires m != [] && Healthy(s, m, repeats) && Permitted(s, m, a, c1, c2)
    ensures Hops(Next(s, m, a), m) < Hops(s, m)
  {
    match a
    case ClientSend(n) =>
    case ClientRecv(n) =>
      if Arrived(s.client, s.down[..n]) && s.client.repeatsLeft > 0 {
        assert 4 * |m| * s.client.repeatsLeft == 4 * |m| * (s.client.repeatsLeft - 1) + 4 * |m|;
      }
    case ServerRecv(n) =>
    case ServerSend(n) =>
  }

  lemma {:induction false} RunsAreShort(m: seq<Byte>, numRepeats: nat, c1: nat, c2: nat,
                                        ss: seq<System>, acts: seq<Action>, k: nat)
    requires m != [] && BoundedRun(m, numRepeats, c1, c2, ss, acts) && k < |ss|
    ensures k + Hops(ss[k], m) <= 4 * |m| * (InitialRepeats(numRepeats) + 1)
  {
    if k == 0 {
      assert 4 * |m| * (InitialRepeats(numRepeats) + 1) == 4 * |m| * InitialRepeats(numRepeats) + 4 * |m|;
    } else {
      RunsAreShort(m, numRepeats, c1, c2, ss, acts, k - 1);
      HealthyAlways(m, numRepeats, c1, c2, ss, acts, k - 1);
      MovingLowersHops(ss[k - 1], m, InitialRepeats(numRepeats), acts[k - 1], c1, c2);
    }
  }

  /** With room for the message in the channels and one byte in the server, every run moves at most
      four hops per byte, and one that cannot go on has echoed every copy. */
  lemma BoundedRunsFinish(m: seq<Byte>, numRepeats: nat, c1: nat, c2: nat, ss: seq<System>, acts: seq<Action>)
    requires m != [] && c1 >= 1 && c2 >= 1 && |m| <= c1 + c2 + 1 && numRepeats >= 1
    requires BoundedRun(m, numRepeats, c1, c2, ss, acts)
    ensures |acts| <= 4 * |m| * numRepeats
    ensures var last := ss[|acts|];
      (forall a :: !Permitted(last, m, a, c1, c2)) ==>
        last.ended == Finished && last.sent == last.received == Copies(m, numRepeats)
  {
    var last := ss[|acts|];
    RunsAreShort(m, numRepeats, c1, c2, ss, acts, |acts|);
    HealthyAlways(m, numRepeats, c1, c2, ss, acts, |acts|);
    if last.ended == Running {
      var a := SomethingMoves(last, m, InitialRepeats(numRepeats), c1, c2);
    } else {
      ExactCopies(m, numRepeats, ss, acts, |acts|);
    }
  }

  // ----- not enough room

  ghost predicate Reachable(m: seq<Byte>, numRepeats: nat, c1: nat, c2: nat, s: System) {
    exists ss: seq<System>, acts: seq<Action> :: BoundedRun(m, numRepeats, c1, c2, ss, acts) && ss[|acts|] == s
  }

  lemma InitialReachable(m: seq<Byte>, numRepeats: nat, c1: nat, c2: nat)
    ensures Reachable(m, numRepeats, c1, c2, InitialSystem(numRepeats))
  {
    assert BoundedRun(m, numRepeats, c1, c2, [InitialSystem(numRepeats)], []);
  }

  lemma Step(m: seq<Byte>, numRepeats: nat, c1: nat, c2: nat, s: System, a: Action) returns (s': System)
    requires Reachable(m, numRepeats, c1, c2, s) && Permitted(s, m, a, c1, c2)
    ensures s' == Next(s, m, a) && Reachable(m, numRepeats, c1, c2, s')
  {
    s' := Next(s, m, a);
    var ss: seq<System>, acts: seq<Action> :| BoundedRun(m, numRepeats, c1, c2, ss, acts) && ss[|acts|] == s;
    var us, bcts := ss + [s'], acts + [a];
    assert forall k :: 0 <= k < |acts| ==> us[k] == ss[k] && bcts[k] == acts[k];
    assert BoundedRun(m, numRepeats, c1, c2, us, bcts) && us[|bcts|] == s';
  }

  // The first `j` bytes have come through to the channel back, and nothing else is under way.
  predicate Through(s: System, m: seq<Byte>, j: nat) {
    && s.ended == Running && s.serverOpen && s.server == ACCEPTED && s.up == [] && |s.down| == j <= |m|
    && s.client.state in {Connecting, ClientSending} && Loaded(s.client, m).rest == m[j..]
  }

  lemma OneThrough(m: seq<Byte>, numRepeats: nat, c1: nat, c2: nat, s: System, j: nat) returns (s': System)
    requires Reachable(m, numRepeats, c1, c2, s) && Through(s, m, j)
    requires j + 1 < |m| && c1 >= 1 && j < c2
    ensures Reachable(m, numRepeats, c1, c2, s') && Through(s', m, j + 1)
  {
    s' := Step(m, numRepeats, c1, c2, s, ClientSend(1));
    s' := Step(m, numRepeats, c1, c2, s', ServerRecv(1));
    s' := Step(m, numRepeats, c1, c2, s', ServerSend(1));
  }

  lemma {:induction false} FillTheWayBack(m: seq<Byte>, numRepeats: nat, c1: nat, c2: nat, j: nat) returns (s: System)
    requires j < |m| && c1 >= 1 && j <= c2
    ensures Reachable(m, numRepeats, c1, c2, s) && Through(s, m, j)
  {
    if j == 0 {
      InitialReachable(m, numRepeats, c1, c2);
      s := InitialSystem(numRepeats);
    } else {
      s := FillTheWayBack(m, numRepeats, c1, c2, j - 1);
      s := OneThrough(m, numRepeats, c1, c2, s, j - 1);
    }
  }

  lemma LongMessageGetsStuck(m: seq<Byte>, numRepeats: nat, c1: nat, c2: nat) returns (s: System)
    requires c1 >= 1 && |m| > c1 + c2 + 1
    ensures Reachable(m, numRepeats, c1, c2, s) && Stuck(s, m, c1, c2)
  {
    s := FillTheWayBack(m, numRepeats, c1, c2, c2);
    s := Step(m, numRepeats, c1, c2, s, ClientSend(1));
    s := Step(m, numRepeats, c1, c2, s, ServerRecv(1));
    s := Step(m, numRepeats, c1, c2, s, ClientSend(c1));
  }

  /** The system never gets stuck, whatever is sent and received when, if and only if the channels and
      one byte in the server have room for the message. */
  lemma NeverStuckExactly(m: seq<Byte>, numRepeats: nat, c1: nat, c2: nat)
    requires m != [] && c1 >= 1 && c2 >= 1
    ensures (forall s :: Reachable(m, numRepeats, c1, c2, s) ==> !Stuck(s, m, c1, c2)) <==> |m| <= c1 + c2 + 1
  {
    if |m| <= c1 + c2 + 1 {
      forall s | Reachable(m, numRepeats, c1, c2, s) ensures !Stuck(s, m, c1, c2) {
        var ss: seq<System>, acts: seq<Action> :| BoundedRun(m, numRepeats, c1, c2, ss, acts) && ss[|acts|] == s;
        HealthyAlways(m, numRepeats, c1, c2, ss, acts, |acts|);
        if s.ended == Running {
          var a := SomethingMoves(s, m, InitialRepeats(numRepeats), c1, c2);
        }
      }
    } else {
      var s := LongMessageGetsStuck(m, numRepeats, c1, c2);
    }
  }
}
