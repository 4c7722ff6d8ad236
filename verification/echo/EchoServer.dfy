/** The server's connection structure, updated in place, and the iterative server's loop over it. */
module EchoServer {
  import opened EchoTypes

  class ConnectionData {
    var state: ConnState
    const sock: int
    var bufferOffset: nat
    var bufferSize: nat
    const buffer: array<Byte>

    ghost predicate Valid()
      reads this, buffer
    {
      && buffer.Length == TRANSFER_BUFFER_SIZE + 1
      && bufferOffset <= bufferSize <= TRANSFER_BUFFER_SIZE
      && (state == Receiving ==> bufferSize == 0)
      && (state == Sending ==> bufferOffset < bufferSize)
    }

    ghost function View(): Conn
      requires Valid()
      reads this, buffer
    {
      Conn(state, buffer[bufferOffset..bufferSize])
    }

    constructor (sock: int)
      ensures Valid() && View() == ACCEPTED && this.sock == sock && fresh(buffer)
    {
      state := Receiving;
      this.sock := sock;
      bufferOffset, bufferSize := 0, 0;
      buffer := new Byte[TRANSFER_BUFFER_SIZE + 1](_ => 0);
    }

    method ProcessClientRecv(r: Recv) returns (keep: bool)
      requires Valid() && state == Receiving && RecvFits(r)
      modifies this, buffer
      ensures Valid() && View() == AfterRecv(old(View()), r)
      ensures keep == r.Data?
    {
      if !r.Data? {
        return false;
      }
      forall i | 0 <= i < |r.bytes| {
        buffer[i] := r.bytes[i];
      }
      bufferSize := bufferSize + |r.bytes|;
      buffer[bufferSize] := 0;
      bufferOffset := 0;
      state := Sending;
      assert buffer[..bufferSize] == r.bytes;
      return true;
    }

    method ProcessClientSend(r: Send) returns (keep: bool)
      requires Valid() && state == Sending && SendFits(View(), r)
      modifies this
      ensures Valid() && View() == AfterSend(old(View()), r)
      ensures keep == r.Sent?
    {
      if r.SendError? {
        return false;
      }
      bufferOffset := bufferOffset + r.count;
      if bufferOffset == bufferSize {
        bufferSize := 0;
        bufferOffset := 0;
        state := Receiving;
      }
      return true;
    }
  }

  // ----- one connection, served to its end

  /** What the kernel answers to the next call on a connection, whichever of the two it is. */
  datatype Answer = Answer(recv: Recv, send: Send)

  predicate Fits(c: Conn, a: Answer) {
    if c.state == Receiving then RecvFits(a.recv) else SendFits(c, a.send)
  }

  function After(c: Conn, a: Answer): Conn
    requires Fits(c, a)
  {
    if c.state == Receiving then AfterRecv(c, a.recv) else AfterSend(c, a.send)
  }

  predicate Keeps(c: Conn, a: Answer) {
    if c.state == Receiving then a.recv.Data? else a.send.Sent?
  }

  predicate AllFit(c: Conn, answers: seq<Answer>)
    decreases answers
  {
    answers == [] || (Fits(c, answers[0]) && (Keeps(c, answers[0]) ==> AllFit(After(c, answers[0]), answers[1..])))
  }

  datatype Served = Served(conn: Conn, open: bool, left: seq<Answer>)

  /** The connection after the answers, or after the first one that ends it. */
  function Serve(c: Conn, answers: seq<Answer>): Served
    requires AllFit(c, answers)
    decreases answers
  {
    if answers == [] then Served(c, true, [])
    else if Keeps(c, answers[0]) then Serve(After(c, answers[0]), answers[1..])
    else Served(After(c, answers[0]), false, answers[1..])
  }

  /** The inner loops of the iterative server, for as long as the kernel answers. */
  method ServeConnection(connData: ConnectionData, answers: seq<Answer>) returns (processFurther: bool, left: seq<Answer>)
    requires connData.Valid() && AllFit(connData.View(), answers)
    modifies connData, connData.buffer
    ensures connData.Valid()
    ensures Served(connData.View(), processFurther, left) == Serve(old(connData.View()), answers)
    ensures processFurther ==> left == []
    ensures !processFurther ==> |left| < |answers| && Ends(connData.View(), answers[|answers| - |left| - 1])
  {
    ServeEndsAt(connData.View(), answers);
    processFurther := true;
    left := answers;
    while processFurther && left != []
      invariant connData.Valid() && ServingOn(connData.View(), processFurther, left, Serve(old(connData.View()), answers))
      decreases |left|
    {
      ghost var before := |left|;
      while processFurther && left != [] && connData.state == Receiving
        invariant connData.Valid()
        invariant ServingOn(connData.View(), processFurther, left, Serve(old(connData.View()), answers))
        invariant |left| < before || (|left| == before && processFurther)
        decreases |left|
      {
        processFurther := connData.ProcessClientRecv(left[0].recv);
        left := left[1..];
      }
      while processFurther && left != [] && connData.state == Sending
        invariant connData.Valid()
        invariant ServingOn(connData.View(), processFurther, left, Serve(old(connData.View()), answers))
        invariant |left| < before || (|left| == before && processFurther && connData.state == Sending)
        decreases |left|
      {
        processFurther := connData.ProcessClientSend(left[0].send);
        left := left[1..];
      }
    }
  }

  ghost predicate ServingOn(c: Conn, open: bool, left: seq<Answer>, end: Served) {
    if open then AllFit(c, left) && Serve(c, left) == end else Served(c, open, left) == end
  }

  // ----- when it ends

  // What ends a connection: end of input or an error while it receives, an error while it sends.
  predicate Ends(c: Conn, a: Answer) {
    match c.state
    case Receiving => a.recv == Shutdown || a.recv == RecvError
    case Sending => a.send == SendError
  }

  /** The connection after the first `n` answers. */
  function ConnAfter(c: Conn, answers: seq<Answer>, n: nat): Conn
    requires n <= |answers|
  {
    if n == 0 then c
    else
      var d := ConnAfter(c, answers, n - 1);
      if Fits(d, answers[n - 1]) then After(d, answers[n - 1]) else d
  }

  lemma {:induction false} ConnAfterFirst(c: Conn, answers: seq<Answer>, n: nat)
    requires n < |answers| && Fits(c, answers[0])
    ensures ConnAfter(c, answers, n + 1) == ConnAfter(After(c, answers[0]), answers[1..], n)
  {
    if n > 0 {
      ConnAfterFirst(c, answers, n - 1);
    } else {
      assert ConnAfter(c, answers, 0) == c;
    }
  }

  /** A connection is given up by an answer that ends it in the state it is in and by no other, be it a send
      of part of the buffer or of nothing; the answers behind that one are not asked for. */
  lemma {:induction false} ServeEndsExactly(c: Conn, answers: seq<Answer>)
    requires AllFit(c, answers)
    ensures var r := Serve(c, answers);
      && |r.left| <= |answers| && r.left == answers[|answers| - |r.left|..]
      && r.conn == ConnAfter(c, answers, |answers| - |r.left|)
    ensures var n := |answers| - |Serve(c, answers).left|;
      if Serve(c, answers).open
      then n == |answers| && forall j :: 0 <= j < n ==> !Ends(ConnAfter(c, answers, j), answers[j])
      else
        && n > 0 && Ends(ConnAfter(c, answers, n - 1), answers[n - 1])
        && forall j :: 0 <= j < n - 1 ==> !Ends(ConnAfter(c, answers, j), answers[j])
    decreases answers
  {
    if answers != [] {
      var d, rest := After(c, answers[0]), answers[1..];
      ConnAfterFirst(c, answers, 0);
      if Keeps(c, answers[0]) {
        ServeEndsExactly(d, rest);
        var n := |rest| - |Serve(d, rest).left|;
        assert answers[n + 1..] == rest[n..];
        forall j | 0 <= j <= n ensures ConnAfter(c, answers, j) == if j == 0 then c else ConnAfter(d, rest, j - 1) {
          if j > 0 {
            ConnAfterFirst(c, answers, j - 1);
          }
        }
      }
    }
  }

  // The answer that ends it leaves the buffer as it was.
  lemma ServeEndsAt(c: Conn, answers: seq<Answer>)
    requires AllFit(c, answers)
    ensures var r := Serve(c, answers);
      if r.open then r.left == [] else |r.left| < |answers| && Ends(r.conn, answers[|answers| - |r.left| - 1])
  {
    ServeEndsExactly(c, answers);
  }

  // ----- it echoes

  // The bytes that one answer brings in or takes out.
  function Incoming(c: Conn, a: Answer): seq<Byte> {
    if c.state == Receiving && a.recv.Data? then a.recv.bytes else []
  }

  function Outgoing(c: Conn, a: Answer): seq<Byte>
    requires Fits(c, a)
  {
    if c.state == Sending && a.send.Sent? then c.pending[..a.send.count] else []
  }

  function Input(c: Conn, answers: seq<Answer>): seq<Byte>
    requires AllFit(c, answers)
    decreases answers
  {
    if answers == [] then []
    else Incoming(c, answers[0]) + if Keeps(c, answers[0]) then Input(After(c, answers[0]), answers[1..]) else []
  }

  function Output(c: Conn, answers: seq<Answer>): seq<Byte>
    requires AllFit(c, answers)
    decreases answers
  {
    if answers == [] then []
    else Outgoing(c, answers[0]) + if Keeps(c, answers[0]) then Output(After(c, answers[0]), answers[1..]) else []
  }

  lemma OneAnswerEchoes(c: Conn, a: Answer)
    requires ValidConn(c) && Fits(c, a)
    ensures ValidConn(After(c, a))
    ensures c.pending + Incoming(c, a) == Outgoing(c, a) + After(c, a).pending
  {
  }

  lemma Regroup(p: seq<Byte>, i: seq<Byte>, o: seq<Byte>, q: seq<Byte>, ins: seq<Byte>, outs: seq<Byte>, r: seq<Byte>)
    requires p + i == o + q && q + ins == outs + r
    ensures p + (i + ins) == o + outs + r
  {
    assert p + (i + ins) == (p + i) + ins;
    assert (o + q) + ins == o + (q + ins);
  }

  /** What has come in is what has gone out and what is still in the buffer. */
  lemma {:induction false} ServeEchoes(c: Conn, answers: seq<Answer>)
    requires ValidConn(c) && AllFit(c, answers)
    ensures c.pending + Input(c, answers) == Output(c, answers) + Serve(c, answers).conn.pending
    ensures ValidConn(Serve(c, answers).conn)
    decreases answers
  {
    if answers != [] {
      var a := answers[0];
      var d, rest := After(c, a), answers[1..];
      OneAnswerEchoes(c, a);
      if Keeps(c, a) {
        ServeEchoes(d, rest);
        Regroup(c.pending, Incoming(c, a), Outgoing(c, a), d.pending,
                Input(d, rest), Output(d, rest), Serve(d, rest).conn.pending);
      }
    }
  }
}
