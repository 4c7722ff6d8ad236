/** The multi-client emulator's connection structure, updated in place. */
module EchoClient {
  import opened EchoTypes

  // ----- C strings

  /** What snprintf can leave in the buffer in front of the terminating zero. */
  predicate IsMessage(m: seq<Byte>) {
    0 !in m && |m| < CONNECTION_BUFFER_SIZE
  }

  /** strncmp(a, b, n) != 0. */
  predicate StringsDiffer(a: seq<Byte>, b: seq<Byte>, n: nat)
    requires n <= |a| && n <= |b|
    decreases n
  {
    n > 0 && (a[0] != b[0] || (a[0] != 0 && StringsDiffer(a[1..], b[1..], n - 1)))
  }

  /** Up to a length without a zero in one of them, strncmp compares all bytes. */
  lemma {:induction false} StringsDifferExactly(a: seq<Byte>, b: seq<Byte>, n: nat)
    requires n <= |a| && n <= |b| && 0 !in a[..n]
    ensures StringsDiffer(a, b, n) <==> a[..n] != b[..n]
    decreases n
  {
    if n > 0 {
      assert a[..n] == [a[0]] + a[1..][..n - 1] && b[..n] == [b[0]] + b[1..][..n - 1];
      StringsDifferExactly(a[1..], b[1..], n - 1);
    }
  }

  // ----- one connection

  /** What getsockopt reports of the pending connect. */
  datatype Connect = Connected | ConnectFailed

  datatype ClientAnswer = ClientAnswer(connect: Connect, send: Send, recv: Recv)

  predicate Writes(c: Client) {
    c.state == Connecting || c.state == ClientSending
  }

  predicate ClientFits(c: Client, message: seq<Byte>, a: ClientAnswer) {
    && (Writes(c) && a.send.Sent? ==> a.send.count <= |Loaded(c, message).rest|)
    && (c.state == ClientReceiving && a.recv.Data? ==> 0 < |a.recv.bytes| && |c.got + a.recv.bytes| <= c.expectedSize)
  }

  /** The client after its socket was found ready. */
  function AfterClient(c: Client, message: seq<Byte>, a: ClientAnswer): Client
    requires ClientFits(c, message, a)
  {
    if Writes(c) then
      if (c.state == Connecting && a.connect == ConnectFailed) || a.send == SendError then Killed(c)
      else AfterClientSend(c, message, a.send.count)
    else if c.state == ClientReceiving then
      if a.recv.Data? then AfterClientRecv(c, message, a.recv.bytes) else Killed(c)
    else c
  }

  class ClientConnection {
    var state: ClientState
    var sock: int
    var expectedSize: nat
    var bufferOffset: nat
    var bufferSize: nat
    const buffer: array<Byte>
    var repeatsLeft: nat

    ghost predicate Valid(message: seq<Byte>)
      reads this, buffer
    {
      && buffer.Length == CONNECTION_BUFFER_SIZE + 1 && IsMessage(message)
      && (state == ClientSending ==> bufferOffset <= bufferSize == |message| && buffer[..bufferSize] == message)
      && (state == ClientReceiving ==> bufferOffset <= expectedSize == |message|)
    }

    ghost function View(message: seq<Byte>): Client
      requires Valid(message)
      reads this, buffer
    {
      Client(state,
             if state == ClientSending then buffer[bufferOffset..bufferSize] else [],
             if state == ClientReceiving then buffer[..bufferOffset] else [],
             expectedSize, repeatsLeft)
    }

    /** An entry of main's array after connect_to_server_nonblock returned `sock`. */
    constructor (sock: int, numRepeats: nat, message: seq<Byte>)
      requires IsMessage(message)
      ensures Valid(message) && fresh(buffer) && this.sock == sock
      ensures View(message) == Client(if sock == -1 then Dead else Connecting, [], [], 0, InitialRepeats(numRepeats))
    {
      this.sock := sock;
      state := if sock == -1 then Dead else Connecting;
      repeatsLeft := InitialRepeats(numRepeats);
      expectedSize, bufferOffset, bufferSize := 0, 0, 0;
      buffer := new Byte[CONNECTION_BUFFER_SIZE + 1](_ => 0);
    }

    // snprintf into the buffer, and strlen of it.
    method Load(message: seq<Byte>)
      requires buffer.Length == CONNECTION_BUFFER_SIZE + 1 && IsMessage(message)
      modifies buffer, `bufferOffset, `bufferSize
      ensures bufferOffset == 0 && bufferSize == |message| && buffer[..bufferSize] == message
    {
      bufferOffset := 0;
      forall i | 0 <= i < |message| {
        buffer[i] := message[i];
      }
      buffer[|message|] := 0;
      bufferSize := |message|;
    }

    method ClientProcessSend(message: seq<Byte>, connect: Connect, r: Send) returns (keep: bool)
      requires Valid(message) && Writes(View(message))
      requires r.Sent? ==> r.count <= |Loaded(View(message), message).rest|
      modifies this, buffer
      ensures sock == old(sock) && repeatsLeft == old(repeatsLeft)
      ensures !keep ==> expectedSize == old(expectedSize)
      ensures keep <==> r.Sent? && (old(state) == Connecting ==> connect == Connected)
      ensures keep ==> Valid(message) && View(message) == AfterClientSend(old(View(message)), message, r.count)
    {
      if state == Connecting {
        if connect == ConnectFailed {
          return false;
        }
        Load(message);
        state := ClientSending;
      }
      if r.SendError? {
        return false;
      }
      bufferOffset := bufferOffset + r.count;
      if bufferOffset == bufferSize {
        expectedSize := bufferSize;
        bufferSize := 0;
        bufferOffset := 0;
        forall i | 0 <= i < CONNECTION_BUFFER_SIZE {
          buffer[i] := 0;
        }
        state := ClientReceiving;
      }
      return true;
    }

    // The verification of a whole message.
    method Verify(message: seq<Byte>) returns (mismatch: bool)
      requires buffer.Length == CONNECTION_BUFFER_SIZE + 1 && IsMessage(message) && expectedSize == |message|
      ensures mismatch <==> buffer[..expectedSize] != message
    {
      var reconstructed := message + [0];
      mismatch := StringsDiffer(reconstructed, buffer[..], expectedSize);
      StringsDifferExactly(reconstructed, buffer[..], expectedSize);
      assert reconstructed[..expectedSize] == message;
      assert buffer[..][..expectedSize] == buffer[..expectedSize];
    }

    method ClientProcessRecv(message: seq<Byte>, r: Recv) returns (keep: bool, mismatch: bool)
      requires Valid(message) && state == ClientReceiving
      requires r.Data? ==> 0 < |r.bytes| && bufferOffset + |r.bytes| <= expectedSize
      modifies this, buffer
      ensures sock == old(sock) && expectedSize == old(expectedSize)
      ensures keep <==> r.Data? && !(Arrived(old(View(message)), r.bytes) && old(repeatsLeft) == 0)
      ensures mismatch <==>
        && r.Data? && old(bufferOffset) + |r.bytes| == expectedSize
        && exists j :: 0 <= j < expectedSize && (old(buffer[..bufferOffset]) + r.bytes)[j] != message[j]
      ensures keep ==> Valid(message) && View(message) == AfterClientRecv(old(View(message)), message, r.bytes)
      ensures !keep ==> repeatsLeft == old(repeatsLeft)
    {
      mismatch := false;
      if !r.Data? {
        return false, false;
      }
      forall i | 0 <= i < |r.bytes| {
        buffer[bufferOffset + i] := r.bytes[i];
      }
      ghost var got := old(buffer[..bufferOffset]) + r.bytes;
      bufferOffset := bufferOffset + |r.bytes|;
      buffer[bufferOffset] := 0;
      assert buffer[..bufferOffset] == got;
      if bufferOffset == expectedSize {
        mismatch := Verify(message);
        assert mismatch ==> exists j :: 0 <= j < expectedSize && got[j] != message[j];
        if repeatsLeft > 0 {
          state := ClientSending;
          Load(message);
          repeatsLeft := repeatsLeft - 1;
        } else {
          return false, mismatch;
        }
      }
      return true, mismatch;
    }
  }
}
