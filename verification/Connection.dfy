/** A TcpConn as a value: what each handler does to the two byte queues, the write interest
    and the status, for any results of read, write and poll. */
module Connections {
  import opened Buffers

  datatype Status = Invalid | Handshaking | Connected | Closed | Failed

  /** The installed readcb_: none, the echo server's, or any other. */
  datatype ReadCb = NoCallback | Echo | Custom

  /** What a callback does with its connection: send(getInput()), send of a message of its
      own, and consuming input. */
  datatype Act = SendInput | Send(data: seq<Byte>) | Take(n: nat)

  /** Results of ::read; end of stream is Got of nothing. */
  datatype ReadResult = Got(data: seq<Byte>) | ReadEintr | ReadEagain | ReadError

  /** Results of ::write; writing 0 bytes counts as an error, as in isend. */
  datatype WriteResult = Wrote(n: nat) | WriteEintr | WriteEagain | WriteError

  datatype Offer = Offer(status: Status, input: seq<Byte>)

  /** received, written, accepted and offers record history only: the bytes read from the
      socket, written to it, taken from callers of send, and the calls of readcb_. */
  datatype Conn = Conn(
    status: Status,
    attached: bool,
    fdOpen: bool,
    readOn: bool,
    writeOn: bool,
    input: seq<Byte>,
    output: seq<Byte>,
    cb: ReadCb,
    received: seq<Byte>,
    written: seq<Byte>,
    accepted: seq<Byte>,
    offers: seq<Offer>)

  const New: Conn := Conn(Invalid, false, false, false, false, [], [], NoCallback, [], [], [], [])

  /** A connection after sending, with what is left of the message and of the results. */
  datatype Sent = Sent(conn: Conn, left: seq<Byte>, ws: seq<WriteResult>)

  /** isend. EAGAIN turns write interest on and tries again; only an error leaves bytes over.
      A call that ends has seen finitely many results; after the given ones, write takes
      everything. */
  function Isend(s: Conn, msg: seq<Byte>, ws: seq<WriteResult>): Sent
    decreases |ws|
  {
    if msg == [] then Sent(s, [], ws)
    else if ws == [] then Sent(s.(written := s.written + msg, accepted := s.accepted + msg), [], [])
    else match ws[0]
      case Wrote(n) =>
        if n == 0 then Sent(s, msg, ws[1..])
        else
          var k := if n < |msg| then n else |msg|;
          Isend(s.(written := s.written + msg[..k], accepted := s.accepted + msg[..k]), msg[k..], ws[1..])
      case WriteEintr => Isend(s, msg, ws[1..])
      case WriteEagain => Isend(s.(writeOn := true), msg, ws[1..])
      case WriteError => Sent(s, msg, ws[1..])
  }

  function SendMsg(s: Conn, msg: seq<Byte>, ws: seq<WriteResult>): Sent {
    if !s.attached then Sent(s, msg, ws)
    else if s.writeOn then Sent(s.(output := s.output + msg, accepted := s.accepted + msg), [], ws)
    else Isend(s, msg, ws)
  }

  function DoAct(s: Conn, act: Act, ws: seq<WriteResult>): Sent {
    match act
    case SendInput =>
      var r := SendMsg(s, s.input, ws);
      r.(conn := r.conn.(input := r.left))
    case Send(data) => SendMsg(s, data, ws)
    case Take(n) => Sent(s.(input := if n < |s.input| then s.input[n..] else []), [], ws)
  }

  function RunActs(s: Conn, acts: seq<Act>, ws: seq<WriteResult>): Conn
    decreases |acts|
  {
    if acts == [] then s
    else
      var r := DoAct(s, acts[0], ws);
      RunActs(r.conn, acts[1..], r.ws)
  }

  /** Pending input is offered to the callback if one is installed. The acts are those of a Custom
      callback. */
  function Offered(s: Conn, acts: seq<Act>, ws: seq<WriteResult>): Conn {
    if s.cb == NoCallback || s.input == [] then s
    else RunActs(s.(offers := s.offers + [Offer(s.status, s.input)]),
                 if s.cb == Echo then [SendInput] else acts, ws)
  }

  function Cleanup(s: Conn, acts: seq<Act>, ws: seq<WriteResult>): Conn {
    var r := Offered(s, acts, ws);
    r.(status := if r.status == Handshaking then Failed else Closed, cb := NoCallback)
  }

  /** writable: poll reports exactly POLLOUT. */
  function Handshake(s: Conn, writable: bool, acts: seq<Act>, ws: seq<WriteResult>): Conn {
    if writable && s.fdOpen then s.(readOn := true, writeOn := false, status := Connected)
    else Cleanup(s, acts, ws)
  }

  /** The loop of handleRead. A loop that ends has seen finitely many results; after the given
      ones, read reports EAGAIN. */
  function ReadLoop(s: Conn, rs: seq<ReadResult>, acts: seq<Act>, ws: seq<WriteResult>): Conn
    decreases |rs|
  {
    if s.status != Connected then s
    else if !s.fdOpen then Cleanup(s, acts, ws)
    else if rs == [] then Offered(s, acts, ws)
    else match rs[0]
      case Got(data) =>
        if data == [] then Cleanup(s, acts, ws)
        else ReadLoop(s.(input := s.input + data, received := s.received + data), rs[1..], acts, ws)
      case ReadEintr => ReadLoop(s, rs[1..], acts, ws)
      case ReadEagain => Offered(s, acts, ws)
      case ReadError => Cleanup(s, acts, ws)
  }

  function HandleRead(s: Conn, writable: bool, rs: seq<ReadResult>, acts: seq<Act>, ws: seq<WriteResult>): Conn {
    ReadLoop(if s.status == Handshaking then Handshake(s, writable, acts, ws) else s, rs, acts, ws)
  }

  function HandleWrite(s: Conn, writable: bool, acts: seq<Act>, ws: seq<WriteResult>): Conn {
    if s.status == Handshaking then Handshake(s, writable, acts, ws) else s
  }

  // ----- runs -----

  datatype Event =
    | Attach
    | OnRead(cb: ReadCb)
    | Readable(writable: bool, rs: seq<ReadResult>, acts: seq<Act>, ws: seq<WriteResult>)
    | Writable(writable: bool, acts: seq<Act>, ws: seq<WriteResult>)
    | ChannelClosed(acts: seq<Act>, ws: seq<WriteResult>)
    | User(act: Act, ws: seq<WriteResult>)

  /** attach is for a new connection, onRead for one without a callback. */
  predicate Enabled(s: Conn, e: Event) {
    match e
    case Attach => s.status == Invalid
    case OnRead(_) => s.cb == NoCallback
    case Readable(_, _, _, _) => s.attached && s.fdOpen
    case Writable(_, _, _) => s.attached && s.fdOpen
    case ChannelClosed(_, _) => s.attached && s.fdOpen
    case User(_, _) => true
  }

  function Apply(s: Conn, e: Event): Conn {
    match e
    case Attach => s.(status := Handshaking, attached := true, fdOpen := true, readOn := true, writeOn := true)
    case OnRead(cb) => s.(cb := cb)
    case Readable(writable, rs, acts, ws) => HandleRead(s, writable, rs, acts, ws)
    case Writable(writable, acts, ws) => HandleWrite(s, writable, acts, ws)
    case ChannelClosed(acts, ws) => HandleRead(s.(fdOpen := false), false, [], acts, ws)
    case User(act, ws) => DoAct(s, act, ws).conn
  }

  function Run(s: Conn, es: seq<Event>): Conn
    decreases |es|
  {
    if es == [] then s
    else Run(if Enabled(s, es[0]) then Apply(s, es[0]) else s, es[1..])
  }

  // ----- sending -----

  /** The connection after writing sent directly to the socket. */
  function Wire(s: Conn, sent: seq<Byte>, writeOn: bool): Conn {
    s.(written := s.written + sent, accepted := s.accepted + sent, writeOn := writeOn)
  }

  lemma WireTwice(s: Conn, a: seq<Byte>, b: seq<Byte>, on: bool, on': bool)
    ensures Wire(Wire(s, a, on), b, on') == Wire(s, a + b, on')
  {
  }

  /** isend writes a prefix of the message, in order, keeps the rest, and touches nothing else
      but the write interest, which it never turns off. */
  lemma {:induction false} IsendWritesPrefix(s: Conn, msg: seq<Byte>, ws: seq<WriteResult>)
    returns (sent: seq<Byte>)
    ensures var r := Isend(s, msg, ws);
            && msg == sent + r.left
            && r.conn == Wire(s, sent, r.conn.writeOn)
            && (s.writeOn ==> r.conn.writeOn)
    decreases |ws|
  {
    sent := [];
    assert s.written + [] == s.written && s.accepted + [] == s.accepted;
    if msg != [] {
      if ws == [] {
        sent := msg;
      } else {
        match ws[0]
        case Wrote(n) =>
          if n != 0 {
            var k := if n < |msg| then n else |msg|;
            var rest := IsendWritesPrefix(Wire(s, msg[..k], s.writeOn), msg[k..], ws[1..]);
            sent := msg[..k] + rest;
            WireTwice(s, msg[..k], rest, s.writeOn, Isend(s, msg, ws).conn.writeOn);
            assert msg == msg[..k] + msg[k..];
          }
        case WriteEintr => sent := IsendWritesPrefix(s, msg, ws[1..]);
        case WriteEagain =>
          sent := IsendWritesPrefix(s.(writeOn := true), msg, ws[1..]);
        case WriteError =>
      }
    }
  }
}
