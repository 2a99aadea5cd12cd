/** The TcpConn class over its two buffers and its channel, against module Connections. */
module TcpConns {
  import BufferCost
  import opened Buffers
  import Batches
  import opened Pollers
  import opened Connections
  import opened ConnectionRuns
  import opened Replies

  /** A result after which the read loop goes on. */
  predicate GoesOn(r: ReadResult) {
    r.ReadEintr? || (r.Got? && r.data != [])
  }

  predicate AllGoOn(rs: seq<ReadResult>) {
    forall i :: 0 <= i < |rs| ==> GoesOn(rs[i])
  }

  /** The connection after the read loop has taken results that all let it go on. */
  function Fed(s: Conn, rs: seq<ReadResult>): Conn {
    s.(input := s.input + Delivered(rs), received := s.received + Delivered(rs))
  }

  lemma FedOne(s: Conn, r: ReadResult)
    requires GoesOn(r)
    ensures Fed(s, [r]) == if r.Got? then s.(input := s.input + r.data, received := s.received + r.data) else s
  {
    assert [r][1..] == [];
    assert Delivered([r]) == if r.Got? then r.data else [];
    assert s.input + [] == s.input && s.received + [] == s.received;
  }

  lemma Assoc(a: seq<Byte>, b: seq<Byte>, c: seq<Byte>)
    ensures a + b + c == a + (b + c)
  {
  }

  lemma FedNothing(s: Conn)
    ensures Fed(s, []) == s
  {
  }

  lemma FedMore(s: Conn, rs: seq<ReadResult>, r: ReadResult)
    requires AllGoOn(rs) && GoesOn(r)
    ensures Fed(s, rs + [r]) == Fed(Fed(s, rs), [r])
  {
    DeliveredMore(rs, r);
    hide Delivered;
    Assoc(s.input, Delivered(rs), Delivered([r]));
    Assoc(s.received, Delivered(rs), Delivered([r]));
  }

  lemma {:induction false} DeliveredMore(rs: seq<ReadResult>, r: ReadResult)
    requires AllGoOn(rs) && GoesOn(r)
    ensures Delivered(rs + [r]) == Delivered(rs) + Delivered([r])
  {
    if rs == [] {
      assert rs + [r] == [r];
    } else {
      assert GoesOn(rs[0]);
      assert (rs + [r])[1..] == rs[1..] + [r];
      DeliveredMore(rs[1..], r);
    }
  }

  lemma {:induction false} ReadLoopFed(s: Conn, rs: seq<ReadResult>, rest: seq<ReadResult>,
                                       acts: seq<Act>, ws: seq<WriteResult>)
    requires s.status == Connected && (rs != [] ==> s.fdOpen)
    requires AllGoOn(rs)
    ensures ReadLoop(s, rs + rest, acts, ws) == ReadLoop(Fed(s, rs), rest, acts, ws)
    decreases |rs|
  {
    if rs == [] {
      assert rs + rest == rest;
      assert s.input + [] == s.input && s.received + [] == s.received;
    } else {
      assert GoesOn(rs[0]);
      assert (rs + rest)[1..] == rs[1..] + rest;
      var s1 := Fed(s, [rs[0]]);
      FedOne(s, rs[0]);
      ReadLoopFed(s1, rs[1..], rest, acts, ws);
      assert [rs[0]][1..] == [];
      assert Delivered(rs) == Delivered([rs[0]]) + Delivered(rs[1..]);
      Assoc(s.input, Delivered([rs[0]]), Delivered(rs[1..]));
      Assoc(s.received, Delivered([rs[0]]), Delivered(rs[1..]));
      hide Delivered;
    }
  }

  lemma ReadLoopEnds(s: Conn, rs: seq<ReadResult>, r: ReadResult, acts: seq<Act>, ws: seq<WriteResult>)
    requires s.status == Connected && (rs != [] ==> s.fdOpen)
    requires AllGoOn(rs)
    ensures ReadLoop(Fed(s, rs), [r], acts, ws) == ReadLoop(s, rs + [r], acts, ws)
    ensures r == ReadEagain ==> ReadLoop(s, rs + [r], acts, ws) == ReadLoop(s, rs, acts, ws)
  {
    ReadLoopFed(s, rs, [r], acts, ws);
    ReadLoopFed(s, rs, [], acts, ws);
    assert rs + [] == rs;
    hide Offered, Cleanup, Fed;
  }

  /** The kernel's answer cut to the room there is: never to nothing, which would read as the
      end of the stream. */
  ghost predicate Trimmed(took: seq<ReadResult>, rs: seq<ReadResult>) {
    && |took| <= |rs|
    && forall i :: 0 <= i < |took| ==>
         || took[i] == rs[i]
         || (took[i].Got? && rs[i].Got? && took[i].data != [] && took[i].data <= rs[i].data)
  }

  /** What read delivers of the bytes there are into so much room. */
  function Cut(data: seq<Byte>, space: nat): seq<Byte> {
    if |data| < space then data else data[..space]
  }

  /** The loop stops before the kernel's answers end only at one that makes it stop. */
  ghost predicate ReadOut(took: seq<ReadResult>, rs: seq<ReadResult>) {
    |took| == |rs| || (took != [] && !GoesOn(took[|took| - 1]))
  }

  /** The read handler gets as far as its loop. */
  predicate Reads(s: Conn, writable: bool) {
    s.fdOpen && (s.status == Connected || (s.status == Handshaking && writable))
  }

  lemma OfferedStaysAttached(s: Conn, acts: seq<Act>, ws: seq<WriteResult>)
    ensures Offered(s, acts, ws).attached == s.attached && Offered(s, acts, ws).status == s.status
  {
    if s.cb != NoCallback && s.input != [] {
      ActsSameSocket(s.(offers := s.offers + [Offer(s.status, s.input)]), if s.cb == Echo then [SendInput] else acts, ws);
    }
    hide RunActs;
  }

  lemma CleanupFails(s: Conn, acts: seq<Act>, ws: seq<WriteResult>)
    requires s.status == Handshaking
    ensures var r := Cleanup(s, acts, ws); r.status == Failed && r.cb == NoCallback
  {
    OfferedStaysAttached(s, acts, ws);
    hide Offered;
  }

  lemma OneMore(took: seq<ReadResult>, rs: seq<ReadResult>, r: ReadResult)
    requires Trimmed(took, rs) && |took| < |rs| && Trimmed([r], [rs[|took|]])
    ensures Trimmed(took + [r], rs)
    ensures AllGoOn(took) && GoesOn(r) ==> AllGoOn(took + [r])
  {
  }

  lemma EagainStops(r: ReadResult)
    requires Trimmed([r], [ReadEagain])
    ensures r == ReadEagain
  {
    assert [r][0] == r && [ReadEagain][0] == ReadEagain;
  }

  lemma IsendAll(s: Conn, msg: seq<Byte>)
    requires msg != []
    ensures Isend(s, msg, []) == Sent(Wire(s, msg, s.writeOn), [], [])
    ensures Isend(Wire(s, msg, s.writeOn), [], []) == Isend(s, msg, [])
  {
  }

  lemma IsendNothing(s: Conn, ws: seq<WriteResult>)
    ensures Isend(s, [], ws) == Sent(s, [], ws)
  {
  }

  lemma IsendOne(s: Conn, msg: seq<Byte>, ws: seq<WriteResult>)
    requires msg != [] && ws != []
    ensures Isend(s, msg, ws) ==
            match ws[0]
            case Wrote(n) =>
              var k := if n < |msg| then n else |msg|;
              if n == 0 then Sent(s, msg, ws[1..]) else Isend(Wire(s, msg[..k], s.writeOn), msg[k..], ws[1..])
            case WriteEintr => Isend(s, msg, ws[1..])
            case WriteEagain => Isend(s.(writeOn := true), msg, ws[1..])
            case WriteError => Sent(s, msg, ws[1..])
  {
  }

  lemma EchoLeavesNothing(s: Conn, acts: seq<Act>, ws: seq<WriteResult>)
    requires s.status == Connected && s.cb == Echo && s.attached && AllFair(ws)
    ensures forall rs :: ReadLoop(s, rs, acts, ws).input == []
  {
    forall rs ensures ReadLoop(s, rs, acts, ws).input == [] {
      ReadLoopEchoes(s, rs, acts, ws);
    }
  }

  class TcpConn {
    var status: Status
    var channel: Channel?
    var readcb: ReadCb
    const input: Buffer
    const output: Buffer
    ghost var received: seq<Byte>
    ghost var written: seq<Byte>
    ghost var accepted: seq<Byte>
    ghost var offers: seq<Offer>

    ghost function Footprint(): set<object>
      reads this, input, output
    {
      {this} + input.Repr() + output.Repr()
    }

    /** The channel, of which the connection only changes the events. */
    ghost function Socket(): set<Channel>
      reads this
    {
      if channel == null then {} else {channel}
    }

    ghost predicate Valid()
      reads this, input, output
    {
      && input.Valid() && output.Valid()
      && input.Repr() !! output.Repr()
      && input.exp > 0
      && (channel == null <==> status == Invalid)
    }

    ghost function State(): Conn
      requires Valid()
      reads Footprint(), Socket(), this, input, output
    {
      Conn(status, channel != null,
           channel != null && channel.fd >= 0,
           channel != null && channel.ReadEnable(),
           channel != null && channel.WriteEnable(),
           input.Contents(), output.Contents(), readcb, received, written, accepted, offers)
    }

    constructor ()
      ensures Valid() && fresh(Footprint()) && State() == New
    {
      status, channel, readcb := Invalid, null, NoCallback;
      input := new Buffer();
      output := new Buffer();
      received, written, accepted, offers := [], [], [], [];
    }

    /** attach: a new channel on fd, interested in reading and writing and registered with the
        poller. */
    method Attach(poller: PollerEpoll, fd: int)
      requires Valid() && status == Invalid && poller.Valid() && fd > 0
      modifies this`status, this`channel, poller
      ensures Valid() && Footprint() == old(Footprint())
      ensures State() == Apply(old(State()), Event.Attach)
      ensures fresh(channel) && channel.poller == poller && channel.fd == fd
      ensures status == Handshaking && channel.ReadEnable() && channel.WriteEnable()
      ensures poller.Valid()
      ensures poller.live == old(poller.live) + {channel} && poller.known == old(poller.known) + {channel}
    {
      status := Handshaking;
      channel := new Channel(poller, fd, Batches.READ_EVENT | Batches.WRITE_EVENT);
    }

    method OnRead(cb: ReadCb)
      requires Valid() && readcb == NoCallback
      modifies this`readcb
      ensures Valid() && Footprint() == old(Footprint()) && channel == old(channel)
      ensures State() == Apply(old(State()), Event.OnRead(cb))
    {
      readcb := cb;
    }

    /** Bytes that ::write took. */
    ghost method Wrote(sent: seq<Byte>)
      requires Valid()
      modifies this`written, this`accepted
      ensures Valid() && Footprint() == old(Footprint()) && channel == old(channel)
      ensures State() == Wire(old(State()), sent, old(State()).writeOn)
    {
      written := written + sent;
      accepted := accepted + sent;
    }

    method WantWrite()
      requires Valid() && channel != null
      modifies channel`events
      ensures Valid() && Footprint() == old(Footprint()) && channel == old(channel)
      ensures State() == old(State()).(writeOn := true)
    {
      if !channel.WriteEnable() {
        channel.EnableWrite(true);
      }
    }

    /** isend on the bytes of a message. */
    method ISend(msg: seq<Byte>, ws: seq<WriteResult>) returns (sended: nat, rest: seq<WriteResult>)
      requires Valid() && channel != null
      modifies this`written, this`accepted, channel`events
      ensures Valid() && Footprint() == old(Footprint()) && channel == old(channel) && sended <= |msg|
      ensures var r := Isend(old(State()), msg, ws);
              State() == r.conn && msg[sended..] == r.left && rest == r.ws
    {
      hide State, Valid, Footprint, Isend;
      sended := 0;
      var i := 0;
      assert msg[0..] == msg && ws[0..] == ws;
      while sended < |msg|
        invariant Valid() && Footprint() == old(Footprint()) && channel == old(channel) && sended <= |msg| && i <= |ws|
        invariant Isend(State(), msg[sended..], ws[i..]) == Isend(old(State()), msg, ws)
        decreases |ws| - i, |msg| - sended
      {
        if i == |ws| {
          assert ws[i..] == [] && msg[|msg|..] == [];
          IsendAll(State(), msg[sended..]);
          Wrote(msg[sended..]);
          sended := |msg|;
        } else {
          IsendOne(State(), msg[sended..], ws[i..]);
          assert ws[i..][0] == ws[i] && ws[i..][1..] == ws[i + 1..];
          var result := ws[i];
          i := i + 1;
          match result {
            case Wrote(n) =>
              if n == 0 {
                break;
              }
              var k := if n < |msg| - sended then n else |msg| - sended;
              assert msg[sended..][..k] == msg[sended..sended + k] && msg[sended..][k..] == msg[sended + k..];
              Wrote(msg[sended..sended + k]);
              sended := sended + k;
            case WriteEintr =>
            case WriteEagain => WantWrite();
            case WriteError =>
              break;
          }
        }
      }
      rest := ws[i..];
      IsendNothing(State(), rest);
      assert sended == |msg| ==> msg[sended..] == [];
    }

    /** The message as a value, whether it is the connection's own input or a caller's buffer. */
    ghost predicate Message(msg: Buffer)
      reads this, input, output, msg
    {
      && msg.Valid() && msg != output
      && (msg != input ==> msg.Repr() !! Footprint())
    }

    ghost method Accept(bytes: seq<Byte>)
      requires Valid()
      modifies this`accepted
      ensures Valid() && Footprint() == old(Footprint()) && channel == old(channel)
      ensures var s := old(State()); State() == s.(accepted := s.accepted + bytes)
    {
      accepted := accepted + bytes;
    }

    /** output_.absorb(msg) */
    method Enqueue(msg: Buffer)
      requires Valid() && Message(msg)
      modifies output.Repr(), msg.Repr()
      ensures Valid() && fresh(Footprint() - old(Footprint()) - old(msg.Repr())) && channel == old(channel)
      ensures Message(msg) && msg.Contents() == []
      ensures var s := old(State());
              var r := s.(output := s.output + old(msg.Contents()));
              State() == if msg == input then r.(input := []) else r
    {
      hide Batches.Reads, Batches.Writes;
      ghost var mine := {this} + if channel == null then {} else {channel};
      output.Absorb(msg);
      assert msg.Repr() !! mine && output.Repr() !! mine;
    }

    method Drop(msg: Buffer, n: nat)
      requires Valid() && Message(msg) && n <= msg.e - msg.b
      modifies msg
      ensures Valid() && Footprint() <= old(Footprint()) && channel == old(channel)
      ensures Message(msg) && msg.Contents() == old(msg.Contents())[n..]
      ensures State() == if msg == input then old(State()).(input := msg.Contents()) else old(State())
    {
      hide BufferCost.Apply, Batches.Reads, Batches.Writes;
      msg.Consume(n);
    }

    /** The socket takes what it can of a message. */
    method SendNow(msg: Buffer, ws: seq<WriteResult>) returns (rest: seq<WriteResult>)
      requires Valid() && Message(msg) && channel != null && msg.Contents() != []
      modifies this`written, this`accepted, channel`events, msg
      ensures Valid() && Footprint() <= old(Footprint()) && channel == old(channel) && Message(msg)
      ensures var r := Isend(old(State()), old(msg.Contents()), ws);
              && rest == r.ws && msg.Contents() == r.left
              && State() == if msg == input then r.conn.(input := r.left) else r.conn
    {
      hide Isend, Batches.Reads, Batches.Writes;
      var sended;
      sended, rest := ISend(msg.buf[msg.b..msg.e], ws);
      Drop(msg, sended);
    }

    /** send: the output queue takes the whole message while write interest is on; otherwise
        the socket takes what it can, and the rest stays in the message. */
    method Send(msg: Buffer, ws: seq<WriteResult>) returns (rest: seq<WriteResult>)
      requires Valid() && Message(msg)
      modifies Footprint(), Socket()`events, msg.Repr()
      ensures Valid() && fresh(Footprint() - old(Footprint()) - old(msg.Repr())) && channel == old(channel)
      ensures Message(msg)
      ensures var r := SendMsg(old(State()), old(msg.Contents()), ws);
              && rest == r.ws && msg.Contents() == r.left
              && State() == if msg == input then r.conn.(input := r.left) else r.conn
    {
      hide Isend, Batches.Reads, Batches.Writes;
      rest := ws;
      IsendNothing(State(), ws);
      if channel != null {
        if channel.WriteEnable() {
          Accept(msg.Contents());
          Enqueue(msg);
        }
        if msg.e - msg.b > 0 {
          rest := SendNow(msg, ws);
        }
      }
    }

    method Perform(act: Act, ws: seq<WriteResult>) returns (rest: seq<WriteResult>)
      requires Valid()
      modifies Footprint(), Socket()`events
      ensures Valid() && fresh(Footprint() - old(Footprint())) && channel == old(channel)
      ensures var r := DoAct(old(State()), act, ws); State() == r.conn && rest == r.ws
    {
      match act {
        case SendInput =>
          rest := Send(input, ws);
        case Send(data) =>
          rest := SendBytes(data, ws);
        case Take(n) =>
          input.Consume(if n < input.e - input.b then n else input.e - input.b);
          rest := ws;
      }
    }

    /** A user sending a message of its own. */
    method SendBytes(data: seq<Byte>, ws: seq<WriteResult>) returns (rest: seq<WriteResult>)
      requires Valid()
      modifies Footprint(), Socket()`events
      ensures Valid() && fresh(Footprint() - old(Footprint())) && channel == old(channel)
      ensures var r := SendMsg(old(State()), data, ws); State() == r.conn && rest == r.ws
    {
      hide SendMsg;
      var msg := NewMessage(data);
      rest := Send(msg, ws);
    }

    static method NewMessage(data: seq<Byte>) returns (msg: Buffer)
      ensures msg.Valid() && fresh(msg.Repr()) && msg.Contents() == data
    {
      hide BufferCost.Apply, BufferCost.Allowed;
      msg := new Buffer();
      msg.Append(data);
    }

    /** A callback doing the given acts on its connection. */
    method PerformAll(acts: seq<Act>, ws: seq<WriteResult>)
      requires Valid()
      modifies Footprint(), Socket()`events
      ensures Valid() && fresh(Footprint() - old(Footprint())) && channel == old(channel)
      ensures State() == RunActs(old(State()), acts, ws)
      decreases |acts|
    {
      if acts != [] {
        var rest := Perform(acts[0], ws);
        PerformAll(acts[1..], rest);
      }
    }

    ghost method LogOffer()
      requires Valid()
      modifies this`offers
      ensures Valid() && Footprint() == old(Footprint()) && channel == old(channel)
      ensures var s := old(State()); State() == s.(offers := s.offers + [Offer(s.status, s.input)])
    {
      offers := offers + [Offer(status, input.Contents())];
    }

    /** Offers pending input to the callback if one is installed. */
    method OfferInput(acts: seq<Act>, ws: seq<WriteResult>)
      requires Valid()
      modifies Footprint(), Socket()`events
      ensures Valid() && fresh(Footprint() - old(Footprint())) && channel == old(channel)
      ensures State() == Offered(old(State()), acts, ws)
    {
      hide RunActs;
      if readcb != NoCallback && input.e - input.b > 0 {
        LogOffer();
        PerformAll(if readcb == Echo then [SendInput] else acts, ws);
      }
    }

    method Clean(acts: seq<Act>, ws: seq<WriteResult>)
      requires Valid() && channel != null
      modifies Footprint(), Socket()`events
      ensures Valid() && fresh(Footprint() - old(Footprint())) && channel == old(channel)
      ensures State() == Cleanup(old(State()), acts, ws)
    {
      OfferedStaysAttached(State(), acts, ws);
      hide Offered;
      OfferInput(acts, ws);
      status := if status == Handshaking then Failed else Closed;
      readcb := NoCallback;
    }

    /** writable: poll answers 1 and reports exactly POLLOUT. */
    method HandleHandshake(writable: bool, acts: seq<Act>, ws: seq<WriteResult>) returns (result: int)
      requires Valid() && status == Handshaking
      modifies Footprint(), Socket()`events
      ensures Valid() && fresh(Footprint() - old(Footprint())) && channel == old(channel)
      ensures State() == Handshake(old(State()), writable, acts, ws)
      ensures result == if writable && old(channel.fd) >= 0 then 0 else -1
      ensures result == 0 ==> status == Connected && channel.ReadEnable() && !channel.WriteEnable()
      ensures result != 0 ==> status == Failed && readcb == NoCallback
    {
      hide Cleanup;
      CleanupFails(State(), acts, ws);
      if channel.fd >= 0 && writable {
        channel.EnableReadWrite(true, false);
        status := Connected;
        return 0;
      } else {
        Clean(acts, ws);
        return -1;
      }
    }

    method HandleWrite(writable: bool, acts: seq<Act>, ws: seq<WriteResult>)
      requires Valid()
      modifies Footprint(), Socket()`events
      ensures Valid() && fresh(Footprint() - old(Footprint())) && channel == old(channel)
      ensures State() == Connections.HandleWrite(old(State()), writable, acts, ws)
    {
      if status == Handshaking {
        var _ := HandleHandshake(writable, acts, ws);
      }
    }

    /** Makes room in the input buffer. */
    method MakeRoom()
      requires Valid()
      modifies input
      ensures Valid() && fresh(Footprint() - old(Footprint())) && State() == old(State())
      ensures channel == old(channel) && input.cap > input.e
      ensures input.cap - input.e == BufferCost.Prepared(old(input.Offsets())).Space()
    {
      BufferCost.PreparedHasRoom(input.Offsets());
      hide Batches.Reads, Batches.Writes, BufferCost.Expanded;
      input.Prepare();
    }

    /** ::read put bytes behind end(), and addSize. */
    method Receive(bytes: seq<Byte>)
      requires Valid() && |bytes| <= input.cap - input.e
      modifies this`received, input.Repr()
      ensures Valid() && Footprint() == old(Footprint()) && channel == old(channel)
      ensures var s := old(State());
              State() == s.(input := s.input + bytes, received := s.received + bytes)
    {
      hide Batches.Reads, Batches.Writes, BufferCost.CountStored;
      ghost var was := State();
      received := received + bytes;
      input.Store(bytes);
      assert input.Contents() == was.input + bytes && output.Contents() == was.output;
    }

    /** The read handler. took is what ::read really delivered: rs, each answer cut to the room
        in the input buffer. */
    method HandleRead(writable: bool, rs: seq<ReadResult>, acts: seq<Act>, ws: seq<WriteResult>)
      returns (ghost took: seq<ReadResult>)
      requires Valid() && status != Invalid
      modifies Footprint(), Socket()`events
      ensures Valid() && fresh(Footprint() - old(Footprint())) && channel == old(channel)
      ensures State() == Connections.HandleRead(old(State()), writable, took, acts, ws)
      ensures Trimmed(took, rs) && (Reads(old(State()), writable) ==> ReadOut(took, rs))
      ensures old(status) == Connected && old(readcb) == Echo && AllFair(ws) ==> input.Contents() == []
    {
      took := [];
      ghost var start := State();
      if status == Connected && readcb == Echo && AllFair(ws) {
        EchoLeavesNothing(start, acts, ws);
      }
      if status == Handshaking {
        var result := HandleHandshake(writable, acts, ws);
        if result != 0 {
          return;
        }
      }
      took := ReadAll(rs, acts, ws);
    }

    /** The read handler as the poller's client: it leaves the poller valid. */
    method HandleReadOn(poller: PollerEpoll, writable: bool, rs: seq<ReadResult>, acts: seq<Act>, ws: seq<WriteResult>)
      returns (ghost took: seq<ReadResult>)
      requires Valid() && status != Invalid && poller.Valid()
      modifies Footprint(), Socket()`events
      ensures Valid() && fresh(Footprint() - old(Footprint())) && channel == old(channel)
      ensures State() == Connections.HandleRead(old(State()), writable, took, acts, ws)
      ensures Trimmed(took, rs) && (Reads(old(State()), writable) ==> ReadOut(took, rs)) && poller.Valid()
    {
      hide Connections.HandleRead, State, Trimmed, Batches.Reads, Batches.Writes;
      took := HandleRead(writable, rs, acts, ws);
    }

    method HandleWriteOn(poller: PollerEpoll, writable: bool, acts: seq<Act>, ws: seq<WriteResult>)
      requires Valid() && poller.Valid()
      modifies Footprint(), Socket()`events
      ensures Valid() && fresh(Footprint() - old(Footprint())) && channel == old(channel)
      ensures State() == Connections.HandleWrite(old(State()), writable, acts, ws) && poller.Valid()
    {
      hide Connections.HandleWrite, State, Batches.Reads, Batches.Writes;
      HandleWrite(writable, acts, ws);
    }

    /** One turn of the read loop, answer being what the kernel has to say. */
    method ReadOnce(answer: ReadResult, acts: seq<Act>, ws: seq<WriteResult>)
      returns (goOn: bool, ghost took: ReadResult)
      requires Valid() && status == Connected
      modifies Footprint(), Socket()`events
      ensures Valid() && fresh(Footprint() - old(Footprint())) && channel == old(channel)
      ensures Trimmed([took], [answer])
      ensures if goOn then GoesOn(took) && old(State()).fdOpen && State() == Fed(old(State()), [took])
              else State() == ReadLoop(old(State()), [took], acts, ws) && (old(State()).fdOpen ==> !GoesOn(took))
      ensures answer.Got? && old(State()).fdOpen ==>
                took == Got(Cut(answer.data, BufferCost.Prepared(old(input.Offsets())).Space()))
    {
      hide Offered, Cleanup, Delivered, Fed;
      took, goOn := answer, false;
      ghost var s := State();
      MakeRoom();
      assert channel != null && (channel.fd >= 0) == s.fdOpen && s.status == Connected;
      hide State, Valid, Footprint;
      if channel.fd < 0 {
        Clean(acts, ws);
      } else {
        match answer {
          case ReadEintr =>
            goOn := true;
            FedOne(s, took);
          case ReadEagain =>
            OfferInput(acts, ws);
          case ReadError =>
            Clean(acts, ws);
          case Got(data) =>
            var n := if |data| < input.cap - input.e then |data| else input.cap - input.e;
            if n == 0 {
              Clean(acts, ws);
            } else {
              goOn, took := true, Got(data[..n]);
              Receive(data[..n]);
              FedOne(s, took);
            }
        }
      }
    }

    lemma ShowStatus()
      requires Valid()
      ensures State().status == status
    {
    }

    /** The loop of the read handler. */
    method ReadAll(rs: seq<ReadResult>, acts: seq<Act>, ws: seq<WriteResult>)
      returns (ghost took: seq<ReadResult>)
      requires Valid()
      modifies Footprint(), Socket()`events
      ensures Valid() && fresh(Footprint() - old(Footprint())) && channel == old(channel)
      ensures State() == ReadLoop(old(State()), took, acts, ws)
      ensures Trimmed(took, rs) && (Reads(old(State()), false) ==> ReadOut(took, rs))
    {
      hide State, Valid, Delivered, Footprint;
      ghost var start := State();
      took := [];
      FedNothing(start);
      ShowStatus();
      var i := 0;
      while status == Connected
        invariant Valid() && channel == old(channel)
        invariant forall o :: o in Footprint() && o !in old(Footprint()) ==> fresh(o)
        invariant i <= |rs| && |took| == i && Trimmed(took, rs)
        invariant State() == Fed(start, took) && (took != [] ==> start.fdOpen && start.status == Connected)
        invariant AllGoOn(took) && start.status == status
        decreases |rs| - i
      {
        hide Trimmed, AllGoOn, ReadLoop;
        var goOn: bool;
        ghost var r: ReadResult;
        ghost var mine := Footprint();
        label before:
        goOn, r := ReadOnce(if i < |rs| then rs[i] else ReadEagain, acts, ws);
        forall o | o in Footprint() && o !in old(Footprint()) ensures fresh(o) {
          assert o !in mine ==> o in Footprint() - mine && fresh@before(o);
        }
        if i < |rs| {
          OneMore(took, rs, r);
        } else {
          EagainStops(r);
        }
        if !goOn {
          ReadLoopEnds(start, took, r, acts, ws);
          took := if i < |rs| then took + [r] else took;
          break;
        }
        FedMore(start, took, r);
        took := took + [r];
        i := i + 1;
        ShowStatus();
      }
    }

    /** The channel is closed under the connection: Channel::close ends in the read handler. */
    method CloseChannel(acts: seq<Act>, ws: seq<WriteResult>)
      requires Valid() && channel != null && channel.fd > 0
      requires channel.poller.Valid() && channel in channel.poller.known
      modifies Footprint(), Socket()`events, Socket()`fd
      modifies channel.poller`live, channel.poller`log, channel.poller.active
      ensures Valid() && fresh(Footprint() - old(Footprint())) && channel == old(channel)
      ensures State() == Apply(old(State()), Event.ChannelClosed(acts, ws))
      ensures channel.fd == -1 && channel.poller.Valid()
      ensures channel.poller.live == old(channel.poller.live) - {channel}
    {
      hide Connections.HandleRead, State;
      LoseFd();
      ghost var took := HandleReadOn(channel.poller, false, [], acts, ws);
      assert took == [];
    }

    method LoseFd()
      requires Valid() && channel != null && channel.fd > 0
      requires channel.poller.Valid() && channel in channel.poller.known
      modifies channel`fd, channel.poller`live, channel.poller`log, channel.poller.active
      ensures Valid() && Footprint() == old(Footprint()) && status == old(status)
      ensures State() == old(State()).(fdOpen := false)
      ensures channel.fd == -1 && channel.poller.Valid()
      ensures channel.poller.live == old(channel.poller.live) - {channel}
    {
      hide Batches.Reads, Batches.Writes;
      channel.Close();
    }
  }
}
