/** Every client of the emulator, in every run, is the client of the composed system: its visits, the
    server's moves between the rounds and the channels make up one run of `EchoSystem`. */
module EmulatorRefinement {
  import opened EchoTypes
  import opened EchoClient
  import opened EchoEmulator
  import opened EmulatorRuns
  import opened EchoSystem

  // ----- the history of one client

  /** What a round does to one client. */
  datatype Turn = Passed | Visit(answer: ClientAnswer)

  predicate Follows(c: Client, m: seq<Byte>, t: Turn, c': Client) {
    match t
    case Passed => c' == c
    case Visit(a) => c.state != Dead && ClientFits(c, m, a) && c' == AfterClient(c, m, a)
  }

  predicate History(cs: seq<Client>, turns: seq<Turn>, m: seq<Byte>, numRepeats: nat) {
    && |cs| == |turns| + 1 && cs[0] == Client(Connecting, [], [], 0, InitialRepeats(numRepeats))
    && forall k :: 0 <= k < |turns| ==> Follows(cs[k], m, turns[k], cs[k + 1])
  }

  function TurnOf(w: EmulatorRuns.World, inp: Input, i: nat): Turn
    requires i < |w.es|
  {
    if Live(w.es[i]) && w.es[i].sock in inp.ready then Visit(inp.answers(w.es[i].sock)) else Passed
  }

  // True of every index of the array (HasClientAlways).
  predicate HasClient(ws: seq<EmulatorRuns.World>, i: nat) {
    forall k :: 0 <= k < |ws| ==> i < |ws[k].es|
  }

  function Clients(ws: seq<EmulatorRuns.World>, i: nat): seq<Client>
    requires HasClient(ws, i)
  {
    seq(|ws|, k requires 0 <= k < |ws| => ws[k].es[i].client)
  }

  function Turns(ws: seq<EmulatorRuns.World>, inps: seq<Input>, i: nat): seq<Turn>
    requires |ws| == |inps| + 1 && HasClient(ws, i)
  {
    seq(|inps|, k requires 0 <= k < |inps| => TurnOf(ws[k], inps[k], i))
  }

  lemma HasClientAlways(ws: seq<EmulatorRuns.World>, inps: seq<Input>, ms: seq<seq<Byte>>, numRepeats: nat, i: nat)
    requires EmulatorRuns.Run(ws, inps, ms, numRepeats) && i < |ws[0].es|
    ensures HasClient(ws, i)
  {
    forall k | 0 <= k < |ws| ensures i < |ws[k].es| {
      SocketsConserved(ws, inps, ms, numRepeats, k);
    }
  }

  /** A round serves every live client whose socket is ready, once, and leaves every other alone; a client
      that this ends loses its socket. No other client and no other answer has a part in it. */
  lemma RoundOnOne(ws: seq<EmulatorRuns.World>, inps: seq<Input>, ms: seq<seq<Byte>>, numRepeats: nat, k: nat, i: nat)
    requires EmulatorRuns.Run(ws, inps, ms, numRepeats) && k < |inps| && i < |ws[k].es|
    ensures |ws[k + 1].es| == |ws[k].es| == |ms|
    ensures var e, e' := ws[k].es[i], ws[k + 1].es[i];
      if e.client.state != Dead && e.sock in inps[k].ready then
        && ClientFits(e.client, ms[i], inps[k].answers(e.sock))
        && e'.client == AfterClient(e.client, ms[i], inps[k].answers(e.sock))
        && e'.sock == if e'.client.state == Dead then -1 else e.sock
      else e' == e
  {
    var v := Selected(ws[k].es, inps[k]);
    ApartAlways(ws, inps, ms, numRepeats, k);
    assert Fit(ws[k].es[i], ms[i], v);
    if Live(ws[k].es[i]) {
      ReadyExactly(ws[k].es, inps[k], i);
    }
  }

  lemma RunIsHistory(ws: seq<EmulatorRuns.World>, inps: seq<Input>, ms: seq<seq<Byte>>, numRepeats: nat, i: nat)
    requires EmulatorRuns.Run(ws, inps, ms, numRepeats) && HasClient(ws, i) && i < |ms| && Live(ws[0].es[i])
    ensures History(Clients(ws, i), Turns(ws, inps, i), ms[i], numRepeats)
  {
    var cs, turns := Clients(ws, i), Turns(ws, inps, i);
    assert ws[0].es[i] == Started(ws[0].es[i].sock, numRepeats);
    forall k | 0 <= k < |inps| ensures Follows(cs[k], ms[i], turns[k], cs[k + 1]) {
      RoundOnOne(ws, inps, ms, numRepeats, k, i);
    }
  }

  // ----- a visit as an action of the composed system

  function ClientAction(c: Client, a: ClientAnswer): Action {
    if Writes(c) then
      if (c.state == Connecting && a.connect == ConnectFailed) || a.send == SendError then ClientFails
      else ClientSend(a.send.count)
    else if a.recv.Data? then ClientRecv(|a.recv.bytes|)
    else ClientFails
  }

  // What recv returns is what is next in the channel.
  predicate InOrder(s: System, a: ClientAnswer) {
    s.client.state == ClientReceiving && a.recv.Data? ==> a.recv.bytes <= s.down
  }

  function SentIn(c: Client, m: seq<Byte>, a: ClientAnswer): seq<Byte>
    requires ClientFits(c, m, a)
  {
    if ClientAction(c, a).ClientSend? then Loaded(c, m).rest[..a.send.count] else []
  }

  function ReceivedIn(c: Client, a: ClientAnswer): seq<Byte> {
    if ClientAction(c, a).ClientRecv? then a.recv.bytes else []
  }

  // The visit that ends a client without an error.
  predicate Completes(c: Client, a: ClientAnswer) {
    ClientAction(c, a).ClientRecv? && Arrived(c, a.recv.bytes) && c.repeatsLeft == 0
  }

  lemma VisitIsAction(s: System, m: seq<Byte>, a: ClientAnswer)
    requires s.ended == Running && s.client.state != Dead && ClientFits(s.client, m, a) && InOrder(s, a)
    ensures Enabled(s, m, ClientAction(s.client, a))
    ensures var s' := EchoSystem.Next(s, m, ClientAction(s.client, a));
      && s'.client == AfterClient(s.client, m, a)
      && s'.sent == s.sent + SentIn(s.client, m, a) && s'.received == s.received + ReceivedIn(s.client, a)
      && s'.ended == (if s'.client.state != Dead then Running else if Completes(s.client, a) then Finished else Failed)
      && (ClientAction(s.client, a).ClientRecv? && Mismatch(s.client, m, a.recv.bytes) ==> s'.mismatches > 0)
  {
    if s.client.state == ClientReceiving && a.recv.Data? {
      assert s.down[..|a.recv.bytes|] == a.recv.bytes;
    }
  }

  /** The client's actions in the composed system are exactly the emulator's visits over such a channel. */
  lemma ActionsAreVisitsExactly(s: System, m: seq<Byte>, act: Action)
    requires s.ended == Running && s.client.state != Dead
    requires act.ClientSend? || act.ClientRecv? || act.ClientFails?
    ensures Enabled(s, m, act) <==>
      exists a :: ClientFits(s.client, m, a) && InOrder(s, a) && ClientAction(s.client, a) == act
  {
    if Enabled(s, m, act) {
      var a := match act
        case ClientSend(n) => ClientAnswer(Connected, Sent(n), RecvError)
        case ClientRecv(n) => ClientAnswer(Connected, SendError, Data(s.down[..n]))
        case _ => ClientAnswer(ConnectFailed, SendError, RecvError);
      assert ClientFits(s.client, m, a) && InOrder(s, a) && ClientAction(s.client, a) == act;
    }
    forall a | ClientFits(s.client, m, a) && InOrder(s, a) && ClientAction(s.client, a) == act ensures Enabled(s, m, act) {
      VisitIsAction(s, m, a);
    }
  }

  // ----- the composed system along a history

  /** An action if it is possible, and nothing if not. */
  function Try(s: System, m: seq<Byte>, a: Action): System {
    if Enabled(s, m, a) then EchoSystem.Next(s, m, a) else s
  }

  /** The server tries `moves`; what the client would do is not for it to choose. */
  function Served(s: System, m: seq<Byte>, moves: seq<Action>): System {
    if moves == [] then s
    else
      var r, a := Served(s, m, moves[..|moves| - 1]), moves[|moves| - 1];
      if a.ServerRecv? || a.ServerSend? || a.ServerFails? then Try(r, m, a) else r
  }

  function Turned(s: System, m: seq<Byte>, t: Turn): System {
    match t
    case Passed => s
    case Visit(a) => Try(s, m, ClientAction(s.client, a))
  }

  /** The system after `k` rounds, when the server's moves before round j are `moves[j]`. */
  function After(m: seq<Byte>, numRepeats: nat, turns: seq<Turn>, moves: seq<seq<Action>>, k: nat): System
    requires k <= |turns| == |moves|
  {
    if k == 0 then InitialSystem(numRepeats)
    else Turned(Served(After(m, numRepeats, turns, moves, k - 1), m, moves[k - 1]), m, turns[k - 1])
  }

  // The system when round `k` comes to the client.
  function Before(m: seq<Byte>, numRepeats: nat, turns: seq<Turn>, moves: seq<seq<Action>>, k: nat): System
    requires k < |turns| == |moves|
  {
    Served(After(m, numRepeats, turns, moves, k), m, moves[k])
  }

  predicate TurnInOrder(m: seq<Byte>, numRepeats: nat, turns: seq<Turn>, moves: seq<seq<Action>>, k: nat)
    requires k < |turns| == |moves|
  {
    turns[k].Visit? ==> InOrder(Before(m, numRepeats, turns, moves, k), turns[k].answer)
  }

  /** TCP, as the client sees it: every receive returns what is next in the channel. */
  predicate Faithful(m: seq<Byte>, numRepeats: nat, turns: seq<Turn>, moves: seq<seq<Action>>) {
    |turns| == |moves| && forall k :: 0 <= k < |turns| ==> TurnInOrder(m, numRepeats, turns, moves, k)
  }

  lemma {:induction false} ServedKeepsClient(s: System, m: seq<Byte>, moves: seq<Action>)
    ensures var s' := Served(s, m, moves);
      s'.client == s.client && s'.ended == s.ended && s'.sent == s.sent && s'.received == s.received
  {
    if moves != [] {
      ServedKeepsClient(s, m, moves[..|moves| - 1]);
    }
  }

  // ----- the projection

  // All that the client has sent, and received, in its first `k` turns.
  function SentBy(cs: seq<Client>, turns: seq<Turn>, m: seq<Byte>, numRepeats: nat, k: nat): seq<Byte>
    requires History(cs, turns, m, numRepeats) && k <= |turns|
  {
    if k == 0 then []
    else
      assert Follows(cs[k - 1], m, turns[k - 1], cs[k]);
      SentBy(cs, turns, m, numRepeats, k - 1)
      + if turns[k - 1].Visit? then SentIn(cs[k - 1], m, turns[k - 1].answer) else []
  }

  function ReceivedBy(cs: seq<Client>, turns: seq<Turn>, k: nat): seq<Byte>
    requires k <= |turns| <= |cs|
  {
    if k == 0 then []
    else
      ReceivedBy(cs, turns, k - 1) + if turns[k - 1].Visit? then ReceivedIn(cs[k - 1], turns[k - 1].answer) else []
  }

  // The client as the emulator has it, and all that it has sent and received.
  predicate Shown(s: System, c: Client, sent: seq<Byte>, received: seq<Byte>) {
    s.client == c && (s.ended == Running <==> c.state != Dead) && s.sent == sent && s.received == received
  }

  lemma TurnShown(s: System, m: seq<Byte>, t: Turn, c': Client, sent: seq<Byte>, received: seq<Byte>)
    requires Shown(s, s.client, sent, received) && Follows(s.client, m, t, c') && (t.Visit? ==> InOrder(s, t.answer))
    ensures t.Visit? ==> Enabled(s, m, ClientAction(s.client, t.answer))
    ensures Shown(Turned(s, m, t), c', sent + (if t.Visit? then SentIn(s.client, m, t.answer) else []),
                  received + if t.Visit? then ReceivedIn(s.client, t.answer) else [])
  {
    if t.Visit? {
      VisitIsAction(s, m, t.answer);
    }
  }

  /** After every round the client of the composed system is the emulator's. */
  lemma {:induction false} ShownAlways(cs: seq<Client>, turns: seq<Turn>, m: seq<Byte>, numRepeats: nat,
                                       moves: seq<seq<Action>>, k: nat)
    requires History(cs, turns, m, numRepeats) && Faithful(m, numRepeats, turns, moves) && k <= |turns|
    ensures Shown(After(m, numRepeats, turns, moves, k), cs[k],
                  SentBy(cs, turns, m, numRepeats, k), ReceivedBy(cs, turns, k))
  {
    if k > 0 {
      ShownAlways(cs, turns, m, numRepeats, moves, k - 1);
      ServedKeepsClient(After(m, numRepeats, turns, moves, k - 1), m, moves[k - 1]);
      assert TurnInOrder(m, numRepeats, turns, moves, k - 1) && Follows(cs[k - 1], m, turns[k - 1], cs[k]);
      TurnShown(Before(m, numRepeats, turns, moves, k - 1), m, turns[k - 1], cs[k],
                SentBy(cs, turns, m, numRepeats, k - 1), ReceivedBy(cs, turns, k - 1));
    }
  }

  lemma {:induction false} ServedRuns(m: seq<Byte>, numRepeats: nat, ss: seq<System>, acts: seq<Action>, moves: seq<Action>)
    returns (ss': seq<System>, acts': seq<Action>)
    requires EchoSystem.Run(m, numRepeats, ss, acts)
    ensures EchoSystem.Run(m, numRepeats, ss', acts') && ss <= ss' && acts <= acts'
    ensures ss'[|acts'|] == Served(ss[|acts|], m, moves)
  {
    ss', acts' := ss, acts;
    if moves != [] {
      ss', acts' := ServedRuns(m, numRepeats, ss, acts, moves[..|moves| - 1]);
      var a := moves[|moves| - 1];
      if (a.ServerRecv? || a.ServerSend? || a.ServerFails?) && Enabled(ss'[|acts'|], m, a) {
        ss', acts' := ss' + [EchoSystem.Next(ss'[|acts'|], m, a)], acts' + [a];
      }
    }
  }

  // The run `ss` is at the world `marks[j]` after j rounds, and a visit is the last action of its round.
  predicate Marked(m: seq<Byte>, numRepeats: nat, turns: seq<Turn>, moves: seq<seq<Action>>,
                   ss: seq<System>, acts: seq<Action>, marks: seq<nat>, j: nat)
    requires j < |marks| && j <= |turns| == |moves|
  {
    && marks[j] < |ss| && ss[marks[j]] == After(m, numRepeats, turns, moves, j)
    && (j > 0 ==> marks[j - 1] <= marks[j] && LastIsVisit(m, numRepeats, turns, moves, acts, marks, j - 1))
  }

  predicate LastIsVisit(m: seq<Byte>, numRepeats: nat, turns: seq<Turn>, moves: seq<seq<Action>>,
                        acts: seq<Action>, marks: seq<nat>, j: nat)
    requires j + 1 < |marks| && j < |turns| == |moves|
  {
    var s := Before(m, numRepeats, turns, moves, j);
    turns[j].Visit? && Enabled(s, m, ClientAction(s.client, turns[j].answer)) ==>
      marks[j] < marks[j + 1] <= |acts| && acts[marks[j + 1] - 1] == ClientAction(s.client, turns[j].answer)
  }

  lemma TurnRuns(m: seq<Byte>, numRepeats: nat, ss: seq<System>, acts: seq<Action>, t: Turn)
    returns (ss': seq<System>, acts': seq<Action>)
    requires EchoSystem.Run(m, numRepeats, ss, acts)
    ensures EchoSystem.Run(m, numRepeats, ss', acts') && ss <= ss' && acts <= acts'
    ensures ss'[|acts'|] == Turned(ss[|acts|], m, t)
    ensures var s := ss[|acts|];
      t.Visit? && Enabled(s, m, ClientAction(s.client, t.answer)) ==> acts' == acts + [ClientAction(s.client, t.answer)]
  {
    var s := ss[|acts|];
    ss', acts' := ss, acts;
    if t.Visit? && Enabled(s, m, ClientAction(s.client, t.answer)) {
      var a := ClientAction(s.client, t.answer);
      ss', acts' := ss + [EchoSystem.Next(s, m, a)], acts + [a];
    }
  }

  lemma MarkedStays(m: seq<Byte>, numRepeats: nat, turns: seq<Turn>, moves: seq<seq<Action>>,
                    ss: seq<System>, acts: seq<Action>, marks: seq<nat>,
                    ss': seq<System>, acts': seq<Action>, marks': seq<nat>, j: nat)
    requires j < |marks| && j <= |turns| == |moves| && Marked(m, numRepeats, turns, moves, ss, acts, marks, j)
    requires ss <= ss' && acts <= acts' && marks <= marks'
    ensures Marked(m, numRepeats, turns, moves, ss', acts', marks', j)
  {
  }

  lemma {:induction false} RunThrough(m: seq<Byte>, numRepeats: nat, turns: seq<Turn>, moves: seq<seq<Action>>, k: nat)
    returns (ss: seq<System>, acts: seq<Action>, marks: seq<nat>)
    requires k <= |turns| == |moves|
    ensures EchoSystem.Run(m, numRepeats, ss, acts) && |marks| == k + 1 && marks[k] == |acts|
    ensures forall j :: 0 <= j <= k ==> Marked(m, numRepeats, turns, moves, ss, acts, marks, j)
  {
    if k == 0 {
      ss, acts, marks := [InitialSystem(numRepeats)], [], [0];
    } else {
      var ss1, acts1, marks1 := RunThrough(m, numRepeats, turns, moves, k - 1);
      var ss2, acts2 := ServedRuns(m, numRepeats, ss1, acts1, moves[k - 1]);
      assert ss1[|acts1|] == After(m, numRepeats, turns, moves, k - 1) by {
        assert Marked(m, numRepeats, turns, moves, ss1, acts1, marks1, k - 1);
      }
      ss, acts := TurnRuns(m, numRepeats, ss2, acts2, turns[k - 1]);
      marks := marks1 + [|acts|];
      forall j | 0 <= j < k ensures Marked(m, numRepeats, turns, moves, ss, acts, marks, j) {
        assert Marked(m, numRepeats, turns, moves, ss1, acts1, marks1, j);
        MarkedStays(m, numRepeats, turns, moves, ss1, acts1, marks1, ss, acts, marks, j);
      }
      assert marks[..k] == marks1 && marks[k - 1] == |acts1| <= marks[k];
      assert LastIsVisit(m, numRepeats, turns, moves, acts, marks, k - 1);
    }
  }

  lemma VisitEnabled(cs: seq<Client>, turns: seq<Turn>, m: seq<Byte>, numRepeats: nat, moves: seq<seq<Action>>, k: nat)
    requires History(cs, turns, m, numRepeats) && Faithful(m, numRepeats, turns, moves) && k < |turns|
    ensures var s := Before(m, numRepeats, turns, moves, k);
      s.client == cs[k] && (turns[k].Visit? ==>
        && s.ended == Running && ClientFits(s.client, m, turns[k].answer) && InOrder(s, turns[k].answer)
        && Enabled(s, m, ClientAction(cs[k], turns[k].answer)))
  {
    ShownAlways(cs, turns, m, numRepeats, moves, k);
    ServedKeepsClient(After(m, numRepeats, turns, moves, k), m, moves[k]);
    assert TurnInOrder(m, numRepeats, turns, moves, k) && Follows(cs[k], m, turns[k], cs[k + 1]);
    if turns[k].Visit? {
      VisitIsAction(Before(m, numRepeats, turns, moves, k), m, turns[k].answer);
    }
  }

  // Round `k` and the part of the run that belongs to it.
  predicate RoundShown(cs: seq<Client>, turns: seq<Turn>, acts: seq<Action>, marks: seq<nat>, k: nat)
    requires k < |turns| && k + 1 < |marks| && |turns| <= |cs|
  {
    && marks[k] <= marks[k + 1]
    && (turns[k].Visit? ==>
          marks[k] < marks[k + 1] <= |acts| && acts[marks[k + 1] - 1] == ClientAction(cs[k], turns[k].answer))
  }

  lemma HistoryProjects(cs: seq<Client>, turns: seq<Turn>, m: seq<Byte>, numRepeats: nat, moves: seq<seq<Action>>)
    returns (ss: seq<System>, acts: seq<Action>, marks: seq<nat>)
    requires History(cs, turns, m, numRepeats) && Faithful(m, numRepeats, turns, moves)
    ensures EchoSystem.Run(m, numRepeats, ss, acts) && |marks| == |cs|
    ensures forall k :: 0 <= k < |cs| ==> marks[k] < |ss| && ss[marks[k]].client == cs[k]
    ensures forall k :: 0 <= k < |turns| ==> RoundShown(cs, turns, acts, marks, k)
  {
    ss, acts, marks := RunThrough(m, numRepeats, turns, moves, |turns|);
    forall k | 0 <= k < |cs| ensures marks[k] < |ss| && ss[marks[k]].client == cs[k] {
      assert Marked(m, numRepeats, turns, moves, ss, acts, marks, k);
      ShownAlways(cs, turns, m, numRepeats, moves, k);
    }
    forall k | 0 <= k < |turns| ensures RoundShown(cs, turns, acts, marks, k) {
      assert Marked(m, numRepeats, turns, moves, ss, acts, marks, k + 1);
      VisitEnabled(cs, turns, m, numRepeats, moves, k);
    }
  }

  /** The projection: for every client that got a connection, in every run of the emulator, and for whatever
      the server does between the rounds, one run of the composed system has the client as it is after every
      round; each visit is the last action of its round there. */
  lemma ProjectsToSystem(ws: seq<EmulatorRuns.World>, inps: seq<Input>, ms: seq<seq<Byte>>, numRepeats: nat, i: nat,
                         moves: seq<seq<Action>>)
    returns (ss: seq<System>, acts: seq<Action>, marks: seq<nat>)
    requires EmulatorRuns.Run(ws, inps, ms, numRepeats) && HasClient(ws, i) && i < |ms| && Live(ws[0].es[i])
    requires Faithful(ms[i], numRepeats, Turns(ws, inps, i), moves)
    ensures EchoSystem.Run(ms[i], numRepeats, ss, acts) && |marks| == |ws|
    ensures forall k :: 0 <= k < |ws| ==> marks[k] < |ss| && ss[marks[k]].client == ws[k].es[i].client
    ensures forall k :: 0 <= k < |inps| ==> RoundShown(Clients(ws, i), Turns(ws, inps, i), acts, marks, k)
  {
    RunIsHistory(ws, inps, ms, numRepeats, i);
    ss, acts, marks := HistoryProjects(Clients(ws, i), Turns(ws, inps, i), ms[i], numRepeats, moves);
    assert forall k :: 0 <= k < |ws| ==> Clients(ws, i)[k] == ws[k].es[i].client;
  }

  // ----- what the composed system promises, for the emulator

  lemma Reached(m: seq<Byte>, numRepeats: nat, turns: seq<Turn>, moves: seq<seq<Action>>, k: nat)
    returns (ss: seq<System>, acts: seq<Action>)
    requires k <= |turns| == |moves|
    ensures EchoSystem.Run(m, numRepeats, ss, acts) && ss[|acts|] == After(m, numRepeats, turns, moves, k)
  {
    var marks;
    ss, acts, marks := RunThrough(m, numRepeats, turns, moves, k);
    assert Marked(m, numRepeats, turns, moves, ss, acts, marks, k);
  }

  lemma HistoryNeverMismatches(cs: seq<Client>, turns: seq<Turn>, m: seq<Byte>, numRepeats: nat,
                               moves: seq<seq<Action>>, k: nat)
    requires History(cs, turns, m, numRepeats) && Faithful(m, numRepeats, turns, moves) && k < |turns| && turns[k].Visit?
    requires ClientAction(cs[k], turns[k].answer).ClientRecv?
    ensures !Mismatch(cs[k], m, turns[k].answer.recv.bytes)
  {
    VisitEnabled(cs, turns, m, numRepeats, moves, k);
    VisitIsAction(Before(m, numRepeats, turns, moves, k), m, turns[k].answer);
    var ss, acts := Reached(m, numRepeats, turns, moves, k + 1);
    NeverMismatch(m, numRepeats, ss, acts, |acts|);
  }

  lemma HistoryInOrder(cs: seq<Client>, turns: seq<Turn>, m: seq<Byte>, numRepeats: nat, moves: seq<seq<Action>>, k: nat)
    requires History(cs, turns, m, numRepeats) && Faithful(m, numRepeats, turns, moves) && k <= |turns|
    ensures ReceivedBy(cs, turns, k) <= SentBy(cs, turns, m, numRepeats, k)
  {
    ShownAlways(cs, turns, m, numRepeats, moves, k);
    var ss, acts := Reached(m, numRepeats, turns, moves, k);
    EchoedInOrder(m, numRepeats, ss, acts, |acts|);
  }

  lemma HistoryCompletes(cs: seq<Client>, turns: seq<Turn>, m: seq<Byte>, numRepeats: nat, moves: seq<seq<Action>>, k: nat)
    requires History(cs, turns, m, numRepeats) && Faithful(m, numRepeats, turns, moves)
    requires k < |turns| && turns[k].Visit? && Completes(cs[k], turns[k].answer)
    ensures ReceivedBy(cs, turns, k + 1) == SentBy(cs, turns, m, numRepeats, k + 1)
         == Copies(m, InitialRepeats(numRepeats) + 1)
  {
    ShownAlways(cs, turns, m, numRepeats, moves, k + 1);
    assert After(m, numRepeats, turns, moves, k + 1).ended == Finished by {
      VisitEnabled(cs, turns, m, numRepeats, moves, k);
      VisitIsAction(Before(m, numRepeats, turns, moves, k), m, turns[k].answer);
    }
    var ss, acts := Reached(m, numRepeats, turns, moves, k + 1);
    ExactCopies(m, numRepeats, ss, acts, |acts|);
  }

  predicate Echoed(cs: seq<Client>, turns: seq<Turn>, m: seq<Byte>, numRepeats: nat, k: nat)
    requires History(cs, turns, m, numRepeats) && k <= |turns|
  {
    && ReceivedBy(cs, turns, k) <= SentBy(cs, turns, m, numRepeats, k)
    && (k > 0 && turns[k - 1].Visit? && Completes(cs[k - 1], turns[k - 1].answer) ==>
          ReceivedBy(cs, turns, k) == SentBy(cs, turns, m, numRepeats, k) == Copies(m, InitialRepeats(numRepeats) + 1))
  }

  lemma HistoryEchoes(cs: seq<Client>, turns: seq<Turn>, m: seq<Byte>, numRepeats: nat, moves: seq<seq<Action>>, k: nat)
    requires History(cs, turns, m, numRepeats) && Faithful(m, numRepeats, turns, moves) && k <= |turns|
    ensures Echoed(cs, turns, m, numRepeats, k)
  {
    HistoryInOrder(cs, turns, m, numRepeats, moves, k);
    if k > 0 && turns[k - 1].Visit? && Completes(cs[k - 1], turns[k - 1].answer) {
      HistoryCompletes(cs, turns, m, numRepeats, moves, k - 1);
    }
  }

  /** No run of the emulator reports a mismatch. */
  lemma EmulatorNeverMismatches(ws: seq<EmulatorRuns.World>, inps: seq<Input>, ms: seq<seq<Byte>>, numRepeats: nat, i: nat,
                                moves: seq<seq<Action>>, k: nat)
    requires EmulatorRuns.Run(ws, inps, ms, numRepeats) && HasClient(ws, i) && i < |ms| && Live(ws[0].es[i])
    requires Faithful(ms[i], numRepeats, Turns(ws, inps, i), moves)
    requires k < |inps| && Live(ws[k].es[i]) && ws[k].es[i].sock in inps[k].ready
    ensures var c, r := ws[k].es[i].client, inps[k].answers(ws[k].es[i].sock).recv;
      c.state == ClientReceiving && r.Data? && |c.got| + |r.bytes| == c.expectedSize ==> c.got + r.bytes == ms[i]
  {
    var cs, turns := Clients(ws, i), Turns(ws, inps, i);
    RunIsHistory(ws, inps, ms, numRepeats, i);
    if cs[k].state == ClientReceiving && turns[k].answer.recv.Data? {
      HistoryNeverMismatches(cs, turns, ms[i], numRepeats, moves, k);
    }
  }

  /** What a client has received is a prefix of what it has sent, after every round; a client that ends
      without an error has sent and received all its copies. */
  lemma EmulatorEchoes(ws: seq<EmulatorRuns.World>, inps: seq<Input>, ms: seq<seq<Byte>>, numRepeats: nat, i: nat,
                       moves: seq<seq<Action>>, k: nat)
    requires EmulatorRuns.Run(ws, inps, ms, numRepeats) && HasClient(ws, i) && i < |ms| && Live(ws[0].es[i])
    requires Faithful(ms[i], numRepeats, Turns(ws, inps, i), moves) && k <= |inps|
    ensures History(Clients(ws, i), Turns(ws, inps, i), ms[i], numRepeats)
    ensures Echoed(Clients(ws, i), Turns(ws, inps, i), ms[i], numRepeats, k)
  {
    var cs, turns := Clients(ws, i), Turns(ws, inps, i);
    RunIsHistory(ws, inps, ms, numRepeats, i);
    HistoryEchoes(cs, turns, ms[i], numRepeats, moves, k);
  }
}
