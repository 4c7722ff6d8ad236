/** The two ends of a connection as values: what one call of send or recv makes of each. The kernel's
    answers are arguments. */
module EchoTypes {
  type Byte = x: int | 0 <= x < 256

  // kTransferBufferSize of the servers, kConnectionBufferSize of the client
  const TRANSFER_BUFFER_SIZE := 64
  const CONNECTION_BUFFER_SIZE := 256

  /** What recv returns: some bytes, 0 (the peer has shut down) or -1. */
  datatype Recv = Data(bytes: seq<Byte>) | Shutdown | RecvError

  /** What send returns: a count, or -1. */
  datatype Send = Sent(count: nat) | SendError

  // ----- the server's end

  datatype ConnState = Receiving | Sending

  /** A server connection: its state and buffer[bufferOffset..bufferSize]. */
  datatype Conn = Conn(state: ConnState, pending: seq<Byte>)

  const ACCEPTED := Conn(Receiving, [])

  predicate ValidConn(c: Conn) {
    (c.state == Receiving <==> c.pending == []) && |c.pending| <= TRANSFER_BUFFER_SIZE
  }

  predicate RecvFits(r: Recv) {
    r.Data? ==> 0 < |r.bytes| <= TRANSFER_BUFFER_SIZE
  }

  predicate SendFits(c: Conn, r: Send) {
    r.Sent? ==> r.count <= |c.pending|
  }

  // process_client_recv
  function AfterRecv(c: Conn, r: Recv): Conn {
    if r.Data? then Conn(Sending, r.bytes) else c
  }

  // process_client_send
  function AfterSend(c: Conn, r: Send): Conn
    requires SendFits(c, r)
  {
    if r.SendError? then c
    else if r.count == |c.pending| then Conn(Receiving, [])
    else c.(pending := c.pending[r.count..])
  }

  // ----- the client's end

  datatype ClientState = Connecting | ClientSending | ClientReceiving | Dead

  /** A client connection: what is left to send while it sends, what has arrived while it receives. */
  datatype Client = Client(state: ClientState, rest: seq<Byte>, got: seq<Byte>,
                           expectedSize: nat, repeatsLeft: nat)

  /** client_process_send, up to the call of send: a finished connect loads the message. */
  function Loaded(c: Client, message: seq<Byte>): Client {
    if c.state == Connecting then c.(state := ClientSending, rest := message) else c
  }

  function AfterClientSend(c: Client, message: seq<Byte>, count: nat): Client
    requires count <= |Loaded(c, message).rest|
  {
    var d := Loaded(c, message);
    if count == |d.rest| then Client(ClientReceiving, [], [], |message|, d.repeatsLeft)
    else d.(rest := d.rest[count..])
  }

  predicate Arrived(c: Client, bytes: seq<Byte>) {
    |c.got + bytes| == c.expectedSize
  }

  // The comparison of client_process_recv.
  predicate Mismatch(c: Client, message: seq<Byte>, bytes: seq<Byte>) {
    Arrived(c, bytes) && c.got + bytes != message
  }

  /** What main makes of a client that is not to be kept. */
  function Killed(c: Client): Client {
    Client(Dead, [], [], c.expectedSize, c.repeatsLeft)
  }

  /** repeatsLeft as main initialises it: an unsigned numRepeats - 1. */
  function InitialRepeats(numRepeats: nat): nat {
    if numRepeats == 0 then 0xFFFF_FFFF_FFFF_FFFF else numRepeats - 1
  }

  // client_process_recv: the last repeat ends the client.
  function AfterClientRecv(c: Client, message: seq<Byte>, bytes: seq<Byte>): Client {
    if !Arrived(c, bytes) then c.(got := c.got + bytes)
    else if c.repeatsLeft > 0 then Client(ClientSending, message, [], c.expectedSize, c.repeatsLeft - 1)
    else Killed(c)
  }
}
