/** One client, the byte stream to the server, the server's connection and the byte stream back, in
    every interleaving and with every split of sends and receives. */
module EchoSystem {
  import opened EchoTypes

  datatype Ended = Running | Finished | Failed

  /** `sent` and `received` are all bytes that the client has sent and received. */
  datatype System = System(client: Client, up: seq<Byte>, server: Conn, serverOpen: bool, down: seq<Byte>,
                           ended: Ended, mismatches: nat, sent: seq<Byte>, received: seq<Byte>)

  datatype Action =
    | ClientSend(n: nat)
    | ClientRecv(n: nat)
    | ServerRecv(n: nat)
    | ServerSend(n: nat)
    | ClientFails // an error from getsockopt, send or recv, or recv returning 0
    | ServerFails // an error from send or recv, or recv returning 0

  predicate Enabled(s: System, m: seq<Byte>, a: Action) {
    match a
    case ClientSend(n) =>
      s.ended == Running && s.client.state in {Connecting, ClientSending} && n <= |Loaded(s.client, m).rest|
    case ClientRecv(n) =>
      s.ended == Running && s.client.state == ClientReceiving &&
      0 < n <= |s.down| && n <= s.client.expectedSize - |s.client.got|
    case ServerRecv(n) =>
      s.serverOpen && s.server.state == Receiving && 0 < n <= |s.up| && n <= TRANSFER_BUFFER_SIZE
    case ServerSend(n) =>
      s.serverOpen && s.server.state == Sending && n <= |s.server.pending|
    case ClientFails => s.ended == Running
    case ServerFails => s.serverOpen
  }

  function Next(s: System, m: seq<Byte>, a: Action): System
    requires Enabled(s, m, a)
  {
    match a
    case ClientSend(n) =>
      var bytes := Loaded(s.client, m).rest[..n];
      s.(client := AfterClientSend(s.client, m, n), up := s.up + bytes, sent := s.sent + bytes)
    case ClientRecv(n) =>
      var bytes := s.down[..n];
      var c := AfterClientRecv(s.client, m, bytes);
      s.(client := c, down := s.down[n..], received := s.received + bytes,
         mismatches := s.mismatches + if Mismatch(s.client, m, bytes) then 1 else 0,
         ended := if c.state == Dead then Finished else Running)
    case ServerRecv(n) =>
      s.(server := AfterRecv(s.server, Data(s.up[..n])), up := s.up[n..])
    case ServerSend(n) =>
      s.(server := AfterSend(s.server, Sent(n)), down := s.down + s.server.pending[..n])
    case ClientFails => s.(client := Killed(s.client), ended := Failed)
    case ServerFails => s.(serverOpen := false)
  }

  function InitialSystem(numRepeats: nat): System {
    System(Client(Connecting, [], [], 0, InitialRepeats(numRepeats)), [], ACCEPTED, true, [],
           Running, 0, [], [])
  }

  ghost predicate Run(m: seq<Byte>, numRepeats: nat, ss: seq<System>, acts: seq<Action>) {
    && |ss| == |acts| + 1
    && ss[0] == InitialSystem(numRepeats)
    && forall k :: 0 <= k < |acts| ==> Enabled(ss[k], m, acts[k]) && ss[k + 1] == Next(ss[k], m, acts[k])
  }

  function Copies(m: seq<Byte>, k: nat): seq<Byte> {
    if k == 0 then [] else Copies(m, k - 1) + m
  }

  // The bytes under way between the client's two ends, nearest to their destination first; once the
  // server has gone they stay where they are.
  function UnderWay(s: System): seq<Byte> {
    s.down + s.server.pending + s.up
  }

  /** No byte is lost, made up or overtaken. */
  predicate Conserved(s: System) {
    ValidConn(s.server) && s.received + UnderWay(s) == s.sent
  }

  // Before, during and after sending a copy; `done` copies have come back before it.
  predicate WhileSending(s: System, m: seq<Byte>, done: nat, i: nat) {
    && i <= |m| && s.sent == Copies(m, done) + m[..i] && s.received == Copies(m, done)
  }

  predicate WhileReceiving(s: System, m: seq<Byte>, done: nat) {
    && s.client.expectedSize == |m| && |s.client.got| < |m|
    && s.sent == Copies(m, done + 1) && s.received == Copies(m, done) + s.client.got
  }

  predicate WhenFinished(s: System, m: seq<Byte>, repeats: nat) {
    s.sent == s.received == Copies(m, repeats + 1)
  }

  predicate Invariant(s: System, m: seq<Byte>, repeats: nat) {
    && Conserved(s) && s.mismatches == 0 && s.client.repeatsLeft <= repeats
    && var c, done := s.client, repeats - s.client.repeatsLeft;
       match c.state
       case Connecting =>
         s.ended == Running && done == 0 && c.got == [] && WhileSending(s, m, 0, 0)
       case ClientSending =>
         && s.ended == Running && c.got == []
         && c.rest != [] && |c.rest| <= |m| && c.rest == m[|m| - |c.rest|..]
         && WhileSending(s, m, done, |m| - |c.rest|)
       case ClientReceiving =>
         s.ended == Running && WhileReceiving(s, m, done)
       case Dead =>
         s.ended == Failed || (s.ended == Finished && WhenFinished(s, m, repeats))
  }

  // ----- no action loses or reorders a byte

  lemma SplitMiddle<T>(a: seq<T>, p: seq<T>, c: seq<T>, n: nat)
    requires n <= |p|
    ensures a + p[..n] + p[n..] + c == a + p + c
  {
    assert p == p[..n] + p[n..];
  }

  lemma SendKeepsUnderWay(s: System, m: seq<Byte>, n: nat)
    requires ValidConn(s.server) && Enabled(s, m, ServerSend(n))
    ensures UnderWay(Next(s, m, ServerSend(n))) == UnderWay(s) && ValidConn(Next(s, m, ServerSend(n)).server)
  {
    SplitMiddle(s.down, s.server.pending, s.up, n);
    assert AfterSend(s.server, Sent(n)).pending == s.server.pending[n..];
  }

  lemma ClientSendConserves(s: System, m: seq<Byte>, n: nat)
    requires Conserved(s) && Enabled(s, m, ClientSend(n))
    ensures Conserved(Next(s, m, ClientSend(n)))
  {
    var s' := Next(s, m, ClientSend(n));
    assert s'.received + UnderWay(s') == s.received + UnderWay(s) + Loaded(s.client, m).rest[..n];
  }

  lemma ClientRecvConserves(s: System, m: seq<Byte>, n: nat)
    requires Conserved(s) && Enabled(s, m, ClientRecv(n))
    ensures Conserved(Next(s, m, ClientRecv(n)))
  {
    var s' := Next(s, m, ClientRecv(n));
    SplitMiddle(s.received, s.down, s.server.pending + s.up, n);
    assert s'.received + UnderWay(s') == s.received + s.down[..n] + s.down[n..] + (s.server.pending + s.up);
    assert s.received + UnderWay(s) == s.received + s.down + (s.server.pending + s.up);
  }

  lemma ServerRecvConserves(s: System, m: seq<Byte>, n: nat)
    requires Conserved(s) && Enabled(s, m, ServerRecv(n))
    ensures Conserved(Next(s, m, ServerRecv(n)))
  {
    assert s.up == s.up[..n] + s.up[n..];
    assert UnderWay(Next(s, m, ServerRecv(n))) == UnderWay(s);
  }

  lemma StepConserves(s: System, m: seq<Byte>, a: Action)
    requires Conserved(s) && Enabled(s, m, a)
    ensures Conserved(Next(s, m, a))
  {
    match a
    case ClientSend(n) => ClientSendConserves(s, m, n);
    case ClientRecv(n) => ClientRecvConserves(s, m, n);
    case ServerRecv(n) => ServerRecvConserves(s, m, n);
    case ServerSend(n) => SendKeepsUnderWay(s, m, n);
    case ClientFails =>
    case ServerFails =>
  }

  lemma {:induction false} ConservedAlways(m: seq<Byte>, numRepeats: nat, ss: seq<System>, acts: seq<Action>, k: nat)
    requires Run(m, numRepeats, ss, acts) && k < |ss|
    ensures Conserved(ss[k])
  {
    if k > 0 {
      ConservedAlways(m, numRepeats, ss, acts, k - 1);
      StepConserves(ss[k - 1], m, acts[k - 1]);
    }
  }

  // ----- the invariant is kept by every action

  lemma PrefixExtends<T>(s: seq<T>, i: nat, n: nat)
    requires i + n <= |s|
    ensures s[..i] + s[i..][..n] == s[..i + n]
    ensures s[i..][n..] == s[i + n..]
  {
  }

  // Bytes i, ..., i + n - 1 of the message enter the channel.
  lemma BytesEnter(s: System, s': System, m: seq<Byte>, done: nat, i: nat, n: nat)
    requires WhileSending(s, m, done, i) && i + n <= |m|
    requires s'.sent == s.sent + m[i..][..n] && s'.received == s.received
    ensures WhileSending(s', m, done, i + n)
  {
    PrefixExtends(m, i, n);
    assert s'.sent == Copies(m, done) + (m[..i] + m[i..][..n]);
  }

  lemma AllSent(s: System, m: seq<Byte>, done: nat)
    requires WhileSending(s, m, done, |m|) && m != []
    requires s.client.expectedSize == |m| && s.client.got == []
    ensures WhileReceiving(s, m, done)
  {
    assert m[..|m|] == m;
    assert Copies(m, done) + [] == Copies(m, done);
  }

  lemma ClientSendKeeps(s: System, m: seq<Byte>, repeats: nat, n: nat)
    requires m != [] && Invariant(s, m, repeats) && Enabled(s, m, ClientSend(n))
    ensures Invariant(Next(s, m, ClientSend(n)), m, repeats)
  {
    var rest := Loaded(s.client, m).rest;
    var i, done := |m| - |rest|, repeats - s.client.repeatsLeft;
    var s' := Next(s, m, ClientSend(n));
    StepConserves(s, m, ClientSend(n));
    assert rest == m[i..];
    BytesEnter(s, s', m, done, i, n);
    if n == |rest| {
      AllSent(s', m, done);
    } else {
      PrefixExtends(m, i, n);
      assert s'.client.rest == m[i + n..];
    }
  }

  // What a receive of the client makes of the bytes: the message so far.
  lemma BytesReceived(s: System, m: seq<Byte>, done: nat, n: nat)
    requires Conserved(s) && WhileReceiving(s, m, done) && Enabled(s, m, ClientRecv(n))
    ensures var got := s.client.got + s.down[..n];
      && got <= m && Next(s, m, ClientRecv(n)).received == Copies(m, done) + got
      && (got == m ==> UnderWay(Next(s, m, ClientRecv(n))) == [])
  {
    var s', got := Next(s, m, ClientRecv(n)), s.client.got + s.down[..n];
    StepConserves(s, m, ClientRecv(n));
    assert s'.received == Copies(m, done) + got;
    SamePrefix(Copies(m, done), got + UnderWay(s'), m);
  }

  lemma SamePrefix<T>(a: seq<T>, b: seq<T>, c: seq<T>)
    requires a + b == a + c
    ensures b == c
  {
    assert b == (a + b)[|a|..];
    assert c == (a + c)[|a|..];
  }

  lemma CopyComplete(s: System, m: seq<Byte>, repeats: nat, n: nat)
    requires m != [] && Invariant(s, m, repeats) && Enabled(s, m, ClientRecv(n)) && Arrived(s.client, s.down[..n])
    ensures Invariant(Next(s, m, ClientRecv(n)), m, repeats)
    ensures UnderWay(Next(s, m, ClientRecv(n))) == []
  {
    var done := repeats - s.client.repeatsLeft;
    StepConserves(s, m, ClientRecv(n));
    BytesReceived(s, m, done, n);
    assert s.client.got + s.down[..n] == m;
    assert m[0..] == m && m[..0] == [];
  }

  lemma ClientRecvKeeps(s: System, m: seq<Byte>, repeats: nat, n: nat)
    requires m != [] && Invariant(s, m, repeats) && Enabled(s, m, ClientRecv(n))
    ensures Invariant(Next(s, m, ClientRecv(n)), m, repeats)
  {
    if Arrived(s.client, s.down[..n]) {
      CopyComplete(s, m, repeats, n);
    } else {
      StepConserves(s, m, ClientRecv(n));
      BytesReceived(s, m, repeats - s.client.repeatsLeft, n);
    }
  }

  lemma StepKeepsInvariant(s: System, m: seq<Byte>, repeats: nat, a: Action)
    requires m != [] && Invariant(s, m, repeats) && Enabled(s, m, a)
    ensures Invariant(Next(s, m, a), m, repeats)
  {
    match a
    case ClientSend(n) => ClientSendKeeps(s, m, repeats, n);
    case ClientRecv(n) => ClientRecvKeeps(s, m, repeats, n);
    case ServerRecv(_) => StepConserves(s, m, a);
    case ServerSend(_) => StepConserves(s, m, a);
    case ClientFails =>
    case ServerFails =>
  }

  /** The mismatch counter goes up exactly when a receive completes a copy that is not the message. */
  lemma MismatchCounted(s: System, m: seq<Byte>, a: Action)
    requires Enabled(s, m, a)
    ensures Next(s, m, a).mismatches == s.mismatches +
      if a.ClientRecv? && |s.client.got| + a.n == s.client.expectedSize && s.client.got + s.down[..a.n] != m then 1 else 0
  {
  }

  lemma {:induction false} InvariantAlways(m: seq<Byte>, numRepeats: nat, ss: seq<System>, acts: seq<Action>, k: nat)
    requires m != [] && Run(m, numRepeats, ss, acts) && k < |ss|
    ensures Invariant(ss[k], m, InitialRepeats(numRepeats))
  {
    if k > 0 {
      InvariantAlways(m, numRepeats, ss, acts, k - 1);
      StepKeepsInvariant(ss[k - 1], m, InitialRepeats(numRepeats), acts[k - 1]);
    }
  }

  // ----- the empty message

  // Nothing moves: the client sends nothing, and then waits for a byte that nobody has sent.
  predicate Silent(s: System) {
    && s.mismatches == 0 && s.ended != Finished && s.sent == s.received == []
    && s.up == s.down == s.server.pending == [] && s.server.state == Receiving
    && (s.ended == Running ==>
          s.client.state == Connecting || (s.client.state == ClientReceiving && s.client.expectedSize == 0))
  }

  lemma {:induction false} EmptyMessageNeverFinishes(numRepeats: nat, ss: seq<System>, acts: seq<Action>, k: nat)
    requires Run([], numRepeats, ss, acts) && k < |ss|
    ensures Silent(ss[k])
  {
    if k > 0 {
      EmptyMessageNeverFinishes(numRepeats, ss, acts, k - 1);
      SilentStep(ss[k - 1], acts[k - 1]);
    }
  }

  lemma SilentStep(s: System, a: Action)
    requires Silent(s) && Enabled(s, [], a)
    ensures Silent(Next(s, [], a))
  {
  }

  // ----- what it means

  /** The message-mismatch branch is unreachable. */
  lemma NeverMismatch(m: seq<Byte>, numRepeats: nat, ss: seq<System>, acts: seq<Action>, k: nat)
    requires Run(m, numRepeats, ss, acts) && k < |ss|
    ensures ss[k].mismatches == 0
  {
    if m == [] {
      EmptyMessageNeverFinishes(numRepeats, ss, acts, k);
    } else {
      InvariantAlways(m, numRepeats, ss, acts, k);
    }
  }

  /** Whatever has failed, what the client has received is at all times a prefix of what it has sent, and
      the rest is under way, in order. */
  lemma EchoedInOrder(m: seq<Byte>, numRepeats: nat, ss: seq<System>, acts: seq<Action>, k: nat)
    requires Run(m, numRepeats, ss, acts) && k < |ss|
    ensures ss[k].received <= ss[k].sent
    ensures ss[k].received + UnderWay(ss[k]) == ss[k].sent
  {
    ConservedAlways(m, numRepeats, ss, acts, k);
  }

  /** At a repeat boundary, and at the end, nothing is left in the channels or the server's buffer. */
  lemma EmptyAtBoundary(m: seq<Byte>, numRepeats: nat, ss: seq<System>, acts: seq<Action>, k: nat)
    requires Run(m, numRepeats, ss, acts) && k < |acts| && acts[k].ClientRecv?
    requires Arrived(ss[k].client, ss[k].down[..acts[k].n])
    ensures UnderWay(ss[k + 1]) == []
  {
    if m == [] {
      EmptyMessageNeverFinishes(numRepeats, ss, acts, k);
      assert false;
    }
    InvariantAlways(m, numRepeats, ss, acts, k);
    CopyComplete(ss[k], m, InitialRepeats(numRepeats), acts[k].n);
  }

  /** A side that has failed does nothing any more, and a client that has ended neither. */
  lemma {:induction false} GoneForGood(m: seq<Byte>, numRepeats: nat, ss: seq<System>, acts: seq<Action>, j: nat, k: nat)
    requires Run(m, numRepeats, ss, acts) && j < k <= |acts|
    ensures acts[j] == ServerFails ==> !ss[k].serverOpen
    ensures acts[j] == ClientFails ==> ss[k].ended == Failed
    ensures ss[j].ended != Running ==> ss[k].ended == ss[j].ended && ss[k].client == ss[j].client
    ensures k < |acts| ==>
      && (acts[j] == ServerFails ==> !acts[k].ServerRecv? && !acts[k].ServerSend?)
      && (acts[j] == ClientFails || ss[j].ended != Running ==> !acts[k].ClientSend? && !acts[k].ClientRecv?)
    decreases k
  {
    if j + 1 < k {
      GoneForGood(m, numRepeats, ss, acts, j, k - 1);
    }
  }

  /** A client that ends without an I/O error has sent and received exactly numRepeats copies, if it
      was asked for at least one. */
  lemma ExactCopies(m: seq<Byte>, numRepeats: nat, ss: seq<System>, acts: seq<Action>, k: nat)
    requires Run(m, numRepeats, ss, acts) && k < |ss| && ss[k].ended == Finished
    ensures m != []
    ensures ss[k].sent == ss[k].received == Copies(m, InitialRepeats(numRepeats) + 1)
    ensures numRepeats >= 1 ==> ss[k].sent == ss[k].received == Copies(m, numRepeats)
  {
    if m == [] {
      EmptyMessageNeverFinishes(numRepeats, ss, acts, k);
      assert false;
    }
    InvariantAlways(m, numRepeats, ss, acts, k);
  }
}
