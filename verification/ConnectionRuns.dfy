/** What holds of a connection over whole runs of its handlers. */
module ConnectionRuns {
  import opened Buffers
  import opened Connections

  ghost predicate Attachment(s: Conn) {
    && (s.attached <==> s.status != Invalid)
    && (s.status == Invalid || s.status == Handshaking ==> s.input == [])
  }

  // ----- lifecycle -----

  predicate Moves(a: Status, b: Status) {
    a == b || match a
      case Invalid => b == Handshaking
      case Handshaking => b == Connected || b == Failed
      case Connected => b == Closed
      case _ => false
  }

  /** Offers made since s were made by a connected connection with input. */
  ghost predicate OffersFine(s: Conn, r: Conn) {
    && s.offers <= r.offers
    && forall i :: |s.offers| <= i < |r.offers| ==> r.offers[i].status == Connected && r.offers[i].input != []
  }

  /** Sending and consuming leave the status, the callback and the socket's reading side. */
  predicate SameSocket(s: Conn, r: Conn) {
    && r.status == s.status && r.attached == s.attached && r.fdOpen == s.fdOpen
    && r.cb == s.cb && r.received == s.received && r.offers == s.offers
    && (s.writeOn ==> r.writeOn)
    && (s.input == [] ==> r.input == [])
  }

  lemma ActSameSocket(s: Conn, act: Act, ws: seq<WriteResult>)
    ensures SameSocket(s, DoAct(s, act, ws).conn)
  {
    if act.SendInput? && s.attached && !s.writeOn {
      var sent := IsendWritesPrefix(s, s.input, ws);
    } else if act.Send? && s.attached && !s.writeOn {
      var sent := IsendWritesPrefix(s, act.data, ws);
    }
    hide Isend;
  }

  lemma {:induction false} ActsSameSocket(s: Conn, acts: seq<Act>, ws: seq<WriteResult>)
    ensures SameSocket(s, RunActs(s, acts, ws))
    decreases |acts|
  {
    if acts != [] {
      ActSameSocket(s, acts[0], ws);
      hide DoAct;
      ActsSameSocket(DoAct(s, acts[0], ws).conn, acts[1..], DoAct(s, acts[0], ws).ws);
    }
  }

  lemma OfferedFine(s: Conn, acts: seq<Act>, ws: seq<WriteResult>)
    requires s.input != [] ==> s.status == Connected
    ensures var r := Offered(s, acts, ws);
            && OffersFine(s, r) && r.status == s.status && r.attached == s.attached && r.received == s.received
            && (s.input == [] ==> r == s)
  {
    if s.cb != NoCallback && s.input != [] {
      var s1 := s.(offers := s.offers + [Offer(s.status, s.input)]);
      ActsSameSocket(s1, if s.cb == Echo then [SendInput] else acts, ws);
    }
    hide RunActs;
  }

  lemma CleanupFine(s: Conn, acts: seq<Act>, ws: seq<WriteResult>)
    requires s.input != [] ==> s.status == Connected
    ensures var r := Cleanup(s, acts, ws);
            && OffersFine(s, r) && r.attached == s.attached && r.received == s.received
            && r.status == if s.status == Handshaking then Failed else Closed
  {
    OfferedFine(s, acts, ws);
    hide Offered;
  }

  lemma {:induction false} ReadLoopFine(s: Conn, rs: seq<ReadResult>, acts: seq<Act>, ws: seq<WriteResult>)
    requires s.status == Connected
    ensures var r := ReadLoop(s, rs, acts, ws);
            OffersFine(s, r) && (r.status == Connected || r.status == Closed) && r.attached == s.attached
    decreases |rs|
  {
    OfferedFine(s, acts, ws);
    CleanupFine(s, acts, ws);
    hide Offered, Cleanup;
    if s.fdOpen && rs != [] {
      match rs[0]
      case Got(data) =>
        if data != [] {
          ReadLoopFine(s.(input := s.input + data, received := s.received + data), rs[1..], acts, ws);
        }
      case ReadEintr => ReadLoopFine(s, rs[1..], acts, ws);
      case _ =>
    }
  }

  lemma HandshakeFine(s: Conn, writable: bool, acts: seq<Act>, ws: seq<WriteResult>)
    requires Attachment(s) && s.status == Handshaking
    ensures var r := Handshake(s, writable, acts, ws);
            Attachment(r) && OffersFine(s, r) && r.status == if writable && s.fdOpen then Connected else Failed
  {
  }

  lemma HandleReadFine(s: Conn, writable: bool, rs: seq<ReadResult>, acts: seq<Act>, ws: seq<WriteResult>)
    requires Attachment(s)
    ensures var h, r := Stage(s, writable, acts, ws), HandleRead(s, writable, rs, acts, ws);
            Attachment(r) && OffersFine(s, r) && Moves(s.status, h) && Moves(h, r.status)
  {
    var s1 := if s.status == Handshaking then Handshake(s, writable, acts, ws) else s;
    if s.status == Handshaking {
      HandshakeFine(s, writable, acts, ws);
    }
    hide Handshake;
    if s1.status == Connected {
      ReadLoopFine(s1, rs, acts, ws);
      hide ReadLoop;
    }
  }

  /** The status between the handshake and the read loop of one handler. */
  function Stage(s: Conn, writable: bool, acts: seq<Act>, ws: seq<WriteResult>): Status {
    if s.status == Handshaking then Handshake(s, writable, acts, ws).status else s.status
  }

  function Midway(s: Conn, e: Event): Status {
    match e
    case Readable(writable, _, acts, ws) => Stage(s, writable, acts, ws)
    case _ => s.status
  }

  lemma ApplyFine(s: Conn, e: Event)
    requires Attachment(s) && Enabled(s, e)
    ensures var h, r := Midway(s, e), Apply(s, e);
            Attachment(r) && OffersFine(s, r) && Moves(s.status, h) && Moves(h, r.status)
  {
    match e
    case Attach =>
    case OnRead(_) =>
    case Readable(writable, rs, acts, ws) => HandleReadFine(s, writable, rs, acts, ws); hide HandleRead, Stage;
    case Writable(writable, acts, ws) =>
      if s.status == Handshaking {
        HandshakeFine(s, writable, acts, ws);
      }
      hide Handshake;
    case ChannelClosed(acts, ws) =>
      var s1 := s.(fdOpen := false);
      HandleReadFine(s1, false, [], acts, ws);
      if s.status == Handshaking {
        HandshakeFine(s1, false, acts, ws);
      }
      hide HandleRead, Handshake;
    case User(act, ws) => ActSameSocket(s, act, ws); hide DoAct;
  }

  /** The statuses a run passes through. */
  function Statuses(s: Conn, es: seq<Event>): seq<Status>
    decreases |es|
  {
    if es == [] then [s.status]
    else if Enabled(s, es[0]) then [s.status, Midway(s, es[0])] + Statuses(Apply(s, es[0]), es[1..])
    else Statuses(s, es[1..])
  }

  /** Every run goes Invalid, Handshaking, then Failed or Connected, then Closed, and the read
      callback is only ever called on a connected connection with input. */
  lemma {:induction false} Lifecycle(s: Conn, es: seq<Event>)
    requires Attachment(s)
    ensures var ss := Statuses(s, es);
            && ss != [] && ss[0] == s.status
            && (forall i :: 0 <= i < |ss| - 1 ==> Moves(ss[i], ss[i + 1]))
            && OffersFine(s, Run(s, es)) && Attachment(Run(s, es))
    decreases |es|
  {
    hide Apply, Midway, Enabled, Attachment, Moves;
    if es != [] {
      if Enabled(s, es[0]) {
        ApplyFine(s, es[0]);
        Lifecycle(Apply(s, es[0]), es[1..]);
      } else {
        Lifecycle(s, es[1..]);
      }
    }
  }

  /** Failed and Closed are final. */
  lemma {:induction false} FinalStaysFinal(s: Conn, es: seq<Event>)
    requires Attachment(s) && (s.status == Failed || s.status == Closed)
    ensures Run(s, es).status == s.status
    decreases |es|
  {
    hide Apply, Attachment, OffersFine;
    if es != [] {
      if Enabled(s, es[0]) {
        ApplyFine(s, es[0]);
        FinalStaysFinal(Apply(s, es[0]), es[1..]);
      } else {
        FinalStaysFinal(s, es[1..]);
      }
    }
  }

  // ----- the echo server -----

  /** Nothing read is lost, duplicated or reordered; queued output means write interest. */
  ghost predicate Echoing(s: Conn) {
    && s.received == s.written + s.output + s.input
    && (s.writeOn || s.output == [])
    && (s.status == Invalid || s.status == Handshaking ==> s.output == [])
    && s.cb != Custom
  }

  lemma EchoSend(s: Conn, ws: seq<WriteResult>)
    requires Echoing(s)
    requires s.status == Invalid || s.status == Handshaking ==> s.input == []
    ensures Echoing(DoAct(s, SendInput, ws).conn)
  {
    if s.attached {
      if s.writeOn {
        assert s.written + (s.output + s.input) + [] == s.written + s.output + s.input;
      } else {
        var sent := IsendWritesPrefix(s, s.input, ws);
        var r := DoAct(s, SendInput, ws).conn;
        assert s.written + [] + (sent + r.input) == s.written + sent + [] + r.input;
      }
    }
    hide Isend;
  }

  lemma EchoOffered(s: Conn, acts: seq<Act>, ws: seq<WriteResult>)
    requires Echoing(s)
    requires s.status == Invalid || s.status == Handshaking ==> s.input == []
    ensures Echoing(Offered(s, acts, ws)) && Offered(s, acts, ws).status == s.status
  {
    if s.cb == Echo && s.input != [] {
      var s1 := s.(offers := s.offers + [Offer(s.status, s.input)]);
      EchoSend(s1, ws);
      ActSameSocket(s1, SendInput, ws);
      var r := DoAct(s1, SendInput, ws);
      assert [SendInput][1..] == [];
      assert RunActs(s1, [SendInput], ws) == r.conn;
    }
    hide RunActs, DoAct;
  }

  lemma EchoCleanup(s: Conn, acts: seq<Act>, ws: seq<WriteResult>)
    requires Echoing(s)
    requires s.status == Invalid || s.status == Handshaking ==> s.input == []
    ensures Echoing(Cleanup(s, acts, ws))
  {
    EchoOffered(s, acts, ws);
    hide Offered;
  }

  lemma {:induction false} EchoReadLoop(s: Conn, rs: seq<ReadResult>, acts: seq<Act>, ws: seq<WriteResult>)
    requires Echoing(s)
    ensures Echoing(ReadLoop(s, rs, acts, ws))
    decreases |rs|
  {
    if s.status == Connected {
      EchoOffered(s, acts, ws);
      EchoCleanup(s, acts, ws);
      hide Offered, Cleanup;
      if s.fdOpen && rs != [] {
        match rs[0]
        case Got(data) =>
          if data != [] {
            assert s.written + s.output + s.input + data == s.written + s.output + (s.input + data);
            EchoReadLoop(s.(input := s.input + data, received := s.received + data), rs[1..], acts, ws);
          }
        case ReadEintr => EchoReadLoop(s, rs[1..], acts, ws);
        case _ =>
      }
    }
  }

  lemma EchoHandshake(s: Conn, writable: bool, acts: seq<Act>, ws: seq<WriteResult>)
    requires Echoing(s) && Attachment(s) && s.status == Handshaking
    ensures Echoing(Handshake(s, writable, acts, ws))
  {
  }

  /** An event of a server whose only callback is the echo callback. */
  predicate EchoEvent(e: Event) {
    !e.User? && (e.OnRead? ==> e.cb == Echo)
  }

  lemma EchoApply(s: Conn, e: Event)
    requires Echoing(s) && Attachment(s) && Enabled(s, e) && EchoEvent(e)
    ensures Echoing(Apply(s, e))
  {
    match e
    case Readable(writable, rs, acts, ws) =>
      if s.status == Handshaking { EchoHandshake(s, writable, acts, ws); }
      EchoReadLoop(if s.status == Handshaking then Handshake(s, writable, acts, ws) else s, rs, acts, ws);
      hide ReadLoop, Handshake;
    case Writable(writable, acts, ws) =>
      if s.status == Handshaking { EchoHandshake(s, writable, acts, ws); }
      hide Handshake;
    case ChannelClosed(acts, ws) =>
      var s1 := s.(fdOpen := false);
      if s.status == Handshaking { EchoHandshake(s1, false, acts, ws); }
      EchoReadLoop(if s.status == Handshaking then Handshake(s1, false, acts, ws) else s1, [], acts, ws);
      hide ReadLoop, Handshake;
    case _ =>
  }

  /** The echo server over whole runs: at every handler boundary the bytes written, then those
      queued for output, then those still unsent in the input, are exactly the bytes read. */
  lemma {:induction false} EchoConservation(s: Conn, es: seq<Event>)
    requires Echoing(s) && Attachment(s)
    requires forall i :: 0 <= i < |es| ==> EchoEvent(es[i])
    ensures Echoing(Run(s, es))
    decreases |es|
  {
    hide Apply, Enabled, Echoing, Attachment, EchoEvent;
    if es != [] {
      if Enabled(s, es[0]) {
        ApplyFine(s, es[0]);
        EchoApply(s, es[0]);
        EchoConservation(Apply(s, es[0]), es[1..]);
      } else {
        EchoConservation(s, es[1..]);
      }
    }
  }

  lemma EchoFromNew(es: seq<Event>)
    requires forall i :: 0 <= i < |es| ==> EchoEvent(es[i])
    ensures var s := Run(New, es); s.received == s.written + s.output + s.input
  {
    EchoConservation(New, es);
    hide Run;
  }

  // ----- order of sent messages, for any callback and any user -----

  /** Everything taken from callers of send is on the wire or queued, in order, and queued
      bytes mean write interest, so nothing can overtake them. */
  ghost predicate InOrder(s: Conn) {
    && s.accepted == s.written + s.output
    && (s.writeOn || s.output == [])
    && (s.status == Invalid || s.status == Handshaking ==> s.output == [])
  }

  lemma SendInOrder(s: Conn, msg: seq<Byte>, ws: seq<WriteResult>)
    requires InOrder(s) && Attachment(s)
    requires s.status == Handshaking ==> msg == []
    ensures InOrder(SendMsg(s, msg, ws).conn)
  {
    if s.attached && s.writeOn {
      assert s.written + s.output + msg == s.written + (s.output + msg);
    } else if s.attached {
      var sent := IsendWritesPrefix(s, msg, ws);
      assert s.written + sent + [] == s.written + [] + sent;
    }
    hide Isend;
  }

  /** The act does not send bytes during the handshake. */
  predicate Patient(s: Conn, act: Act) {
    act.Send? && s.status == Handshaking ==> act.data == []
  }

  lemma ActInOrder(s: Conn, act: Act, ws: seq<WriteResult>)
    requires InOrder(s) && Attachment(s) && Patient(s, act)
    ensures InOrder(DoAct(s, act, ws).conn) && Attachment(DoAct(s, act, ws).conn)
  {
    ActSameSocket(s, act, ws);
    match act
    case SendInput => SendInOrder(s, s.input, ws);
    case Send(data) => SendInOrder(s, data, ws);
    case Take(_) =>
    hide SendMsg;
  }

  lemma {:induction false} ActsInOrder(s: Conn, acts: seq<Act>, ws: seq<WriteResult>)
    requires InOrder(s) && Attachment(s) && s.status == Connected
    ensures InOrder(RunActs(s, acts, ws))
    decreases |acts|
  {
    if acts != [] {
      ActInOrder(s, acts[0], ws);
      ActSameSocket(s, acts[0], ws);
      hide DoAct, InOrder, Attachment;
      ActsInOrder(DoAct(s, acts[0], ws).conn, acts[1..], DoAct(s, acts[0], ws).ws);
    }
  }

  lemma OfferedInOrder(s: Conn, acts: seq<Act>, ws: seq<WriteResult>)
    requires InOrder(s) && Attachment(s)
    requires s.input != [] ==> s.status == Connected
    ensures InOrder(Offered(s, acts, ws)) && InOrder(Cleanup(s, acts, ws))
  {
    OfferedFine(s, acts, ws);
    if s.cb != NoCallback && s.input != [] {
      ActsInOrder(s.(offers := s.offers + [Offer(s.status, s.input)]), if s.cb == Echo then [SendInput] else acts, ws);
    }
    hide RunActs;
  }

  lemma {:induction false} ReadLoopInOrder(s: Conn, rs: seq<ReadResult>, acts: seq<Act>, ws: seq<WriteResult>)
    requires InOrder(s) && Attachment(s)
    ensures InOrder(ReadLoop(s, rs, acts, ws))
    decreases |rs|
  {
    if s.status == Connected {
      OfferedInOrder(s, acts, ws);
      hide Offered, Cleanup;
      if s.fdOpen && rs != [] {
        match rs[0]
        case Got(data) =>
          if data != [] {
            ReadLoopInOrder(s.(input := s.input + data, received := s.received + data), rs[1..], acts, ws);
          }
        case ReadEintr => ReadLoopInOrder(s, rs[1..], acts, ws);
        case _ =>
      }
    }
  }

  lemma HandshakeInOrder(s: Conn, writable: bool, acts: seq<Act>, ws: seq<WriteResult>)
    requires InOrder(s) && Attachment(s) && s.status == Handshaking
    ensures var r := Handshake(s, writable, acts, ws); InOrder(r) && Attachment(r)
  {
  }

  lemma HandleReadInOrder(s: Conn, writable: bool, rs: seq<ReadResult>, acts: seq<Act>, ws: seq<WriteResult>)
    requires InOrder(s) && Attachment(s)
    ensures InOrder(HandleRead(s, writable, rs, acts, ws))
  {
    if s.status == Handshaking {
      HandshakeInOrder(s, writable, acts, ws);
    }
    hide Handshake, InOrder;
    ReadLoopInOrder(if s.status == Handshaking then Handshake(s, writable, acts, ws) else s, rs, acts, ws);
  }

  lemma ApplyInOrder(s: Conn, e: Event)
    requires InOrder(s) && Attachment(s) && Enabled(s, e)
    requires e.User? ==> Patient(s, e.act)
    ensures InOrder(Apply(s, e))
  {
    match e
    case Readable(writable, rs, acts, ws) => HandleReadInOrder(s, writable, rs, acts, ws); hide HandleRead;
    case Writable(writable, acts, ws) =>
      if s.status == Handshaking { HandshakeInOrder(s, writable, acts, ws); }
      hide Handshake;
    case ChannelClosed(acts, ws) =>
      HandleReadInOrder(s.(fdOpen := false), false, [], acts, ws);
      hide HandleRead;
    case User(act, ws) => ActInOrder(s, act, ws); hide DoAct;
    case _ =>
  }

  /** No message is sent between attach and the end of the handshake. */
  predicate PatientRun(s: Conn, es: seq<Event>)
    decreases |es|
  {
    es == [] ||
    (&& (Enabled(s, es[0]) && es[0].User? ==> Patient(s, es[0].act))
     && PatientRun(if Enabled(s, es[0]) then Apply(s, es[0]) else s, es[1..]))
  }

  /** Sent messages reach the wire and the output queue in the order of the calls, in every run
      that sends nothing during the handshake. */
  lemma {:induction false} SendOrder(s: Conn, es: seq<Event>)
    requires InOrder(s) && Attachment(s) && PatientRun(s, es)
    ensures InOrder(Run(s, es))
    decreases |es|
  {
    hide Apply, Enabled, InOrder, Attachment, Patient;
    if es != [] {
      if Enabled(s, es[0]) {
        ApplyFine(s, es[0]);
        ApplyInOrder(s, es[0]);
        SendOrder(Apply(s, es[0]), es[1..]);
      } else {
        SendOrder(s, es[1..]);
      }
    }
  }

  /** When the handshake ends, the order of later messages is safe exactly if nothing was
      queued during it: the handshake turns write interest off over a queue it does not look
      at, and the next message is written past it. */
  lemma HandshakeOrderExactly(s: Conn, acts: seq<Act>, ws: seq<WriteResult>)
    requires s.status == Handshaking && s.attached && s.fdOpen && s.accepted == s.written + s.output
    ensures var r := Handshake(s, true, acts, ws);
            (forall msg, us :: var t := SendMsg(r, msg, us).conn; t.accepted == t.written + t.output)
            <==> s.output == []
  {
    var r := Handshake(s, true, acts, ws);
    if s.output == [] {
      forall msg, us ensures var t := SendMsg(r, msg, us).conn; t.accepted == t.written + t.output {
        var sent := IsendWritesPrefix(r, msg, us);
        assert r.written + sent + [] == r.written + [] + sent;
      }
    } else {
      var x: Byte := if s.output[0] == 0 then 1 else 0;
      var t := SendMsg(r, [x], []).conn;
      assert t.accepted[|s.written|] == s.output[0];
      assert (t.written + t.output)[|s.written|] == x;
    }
  }

  lemma RunFirst(s: Conn, e: Event, es: seq<Event>)
    requires Enabled(s, e)
    ensures Run(s, [e] + es) == Run(Apply(s, e), es)
  {
    assert ([e] + es)[1..] == es;
  }

  /** A run of a new connection that gets there: a is sent during the handshake and b after it;
      b goes to the socket and a stays behind. */
  lemma EarlySendOvertaken(a: seq<Byte>, b: seq<Byte>)
    ensures var s := Run(New, [Attach] + ([User(Send(a), [])] + ([Writable(true, [], [])] + ([User(Send(b), [])] + []))));
            s.status == Connected && s.accepted == a + b && s.written == b && s.output == a
  {
    var last := [User(Send(b), [])] + [];
    var mid := [Writable(true, [], [])] + last;
    var s1 := Apply(New, Attach);
    var s2 := Apply(s1, User(Send(a), []));
    var s3 := Apply(s2, Writable(true, [], []));
    RunFirst(New, Attach, [User(Send(a), [])] + mid);
    RunFirst(s1, User(Send(a), []), mid);
    RunFirst(s2, Writable(true, [], []), last);
    RunFirst(s3, User(Send(b), []), []);
    assert [] + a == a && [] + b == b;
  }

  // ----- the read loop -----

  /** The bytes that a run of read results delivers before it stops. */
  function Delivered(rs: seq<ReadResult>): seq<Byte> {
    if rs == [] then []
    else match rs[0]
      case Got(data) => if data == [] then [] else data + Delivered(rs[1..])
      case ReadEintr => Delivered(rs[1..])
      case _ => []
  }

  /** The result the read loop stops at. */
  function Last(rs: seq<ReadResult>): ReadResult {
    if rs == [] then ReadEagain
    else match rs[0]
      case Got(data) => if data == [] then rs[0] else Last(rs[1..])
      case ReadEintr => Last(rs[1..])
      case _ => rs[0]
  }

  /** r is s after a read loop that took the bytes got and, if closing, shut the connection. */
  ghost predicate HasRead(s: Conn, r: Conn, got: seq<Byte>, closing: bool) {
    var all := s.input + got;
    && r.received == s.received + got
    && (r.status == Closed <==> closing)
    && (s.cb == NoCallback ==> r.input == all && r.offers == s.offers)
    && (s.cb != NoCallback ==>
          r.offers == s.offers + if all == [] then [] else [Offer(Connected, all)])
  }

  lemma ReadMore(s: Conn, r: Conn, data: seq<Byte>, got: seq<Byte>, closing: bool)
    requires HasRead(s.(input := s.input + data, received := s.received + data), r, got, closing)
    ensures HasRead(s, r, data + got, closing)
  {
    assert s.input + data + got == s.input + (data + got);
    assert s.received + data + got == s.received + (data + got);
  }

  lemma ReadNothing(s: Conn, acts: seq<Act>, ws: seq<WriteResult>)
    requires s.status == Connected
    ensures HasRead(s, Offered(s, acts, ws), [], false) && HasRead(s, Cleanup(s, acts, ws), [], true)
  {
    OfferedOnce(s, acts, ws);
    hide Offered;
    assert s.input + [] == s.input && s.received + [] == s.received;
  }

  /** The read loop appends what it reads in order, closes exactly on end of stream or an error,
      and offers all pending input to an installed callback first. */
  lemma {:induction false} ReadLoopExact(s: Conn, rs: seq<ReadResult>, acts: seq<Act>, ws: seq<WriteResult>)
    requires s.status == Connected && s.fdOpen
    ensures HasRead(s, ReadLoop(s, rs, acts, ws), Delivered(rs), !Last(rs).ReadEagain?)
    decreases |rs|
  {
    hide HasRead, Offered, Cleanup;
    ReadNothing(s, acts, ws);
    if rs != [] {
      match rs[0]
      case Got(data) =>
        if data != [] {
          var s1 := s.(input := s.input + data, received := s.received + data);
          ReadLoopExact(s1, rs[1..], acts, ws);
          ReadMore(s, ReadLoop(s1, rs[1..], acts, ws), data, Delivered(rs[1..]), !Last(rs[1..]).ReadEagain?);
        }
      case ReadEintr => ReadLoopExact(s, rs[1..], acts, ws);
      case _ =>
    }
  }

  lemma OfferedOnce(s: Conn, acts: seq<Act>, ws: seq<WriteResult>)
    ensures var r := Offered(s, acts, ws);
            && r.received == s.received && r.status == s.status
            && (s.cb == NoCallback ==> r == s)
            && (s.cb != NoCallback ==>
                  r.offers == s.offers + if s.input == [] then [] else [Offer(s.status, s.input)])
  {
    if s.cb != NoCallback && s.input != [] {
      var s1 := s.(offers := s.offers + [Offer(s.status, s.input)]);
      ActsSameSocket(s1, if s.cb == Echo then [SendInput] else acts, ws);
    }
    hide RunActs;
  }
}
