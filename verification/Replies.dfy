/** What really reaches the peer: the read handler writes what it has read, unless write reports
    an error; what is queued is never written. */
module Replies {
  import opened Buffers
  import opened Connections
  import opened ConnectionRuns

  /** A result of write that is no error: some bytes, EINTR or EAGAIN. */
  predicate Fair(w: WriteResult) {
    w.WriteEintr? || w.WriteEagain? || (w.Wrote? && w.n > 0)
  }

  predicate AllFair(ws: seq<WriteResult>) {
    forall i :: 0 <= i < |ws| ==> Fair(ws[i])
  }

  predicate NoAgain(ws: seq<WriteResult>) {
    forall i :: 0 <= i < |ws| ==> !ws[i].WriteEagain?
  }

  /** Without an error isend writes the whole message; only EAGAIN turns write interest on. */
  lemma {:induction false} IsendWritesAll(s: Conn, msg: seq<Byte>, ws: seq<WriteResult>)
    requires AllFair(ws)
    ensures var r := Isend(s, msg, ws);
            && r.left == [] && AllFair(r.ws) && (NoAgain(ws) ==> NoAgain(r.ws))
            && r.conn == Wire(s, msg, r.conn.writeOn)
            && (s.writeOn || NoAgain(ws) ==> r.conn.writeOn == s.writeOn)
    decreases |ws|
  {
    if msg == [] || ws == [] {
      assert s.written + [] == s.written && s.accepted + [] == s.accepted;
    } else {
      assert Fair(ws[0]);
      match ws[0]
      case Wrote(n) =>
        var k := if n < |msg| then n else |msg|;
        IsendWritesAll(Wire(s, msg[..k], s.writeOn), msg[k..], ws[1..]);
        WireTwice(s, msg[..k], msg[k..], s.writeOn, Isend(s, msg, ws).conn.writeOn);
        assert msg[..k] + msg[k..] == msg;
      case WriteEintr => IsendWritesAll(s, msg, ws[1..]);
      case WriteEagain => IsendWritesAll(s.(writeOn := true), msg, ws[1..]);
    }
  }

  /** send takes the whole message: queued behind what is queued, or written. */
  lemma SendTakesAll(s: Conn, msg: seq<Byte>, ws: seq<WriteResult>)
    requires s.attached && AllFair(ws)
    ensures var r := SendMsg(s, msg, ws);
            && r.left == [] && AllFair(r.ws) && (NoAgain(ws) ==> NoAgain(r.ws))
            && r.conn.accepted == s.accepted + msg && r.conn.input == s.input
            && (s.writeOn ==> r.conn.writeOn && r.conn.output == s.output + msg && r.conn.written == s.written)
            && (!s.writeOn ==> r.conn.output == s.output && r.conn.written == s.written + msg)
            && (!s.writeOn && NoAgain(ws) ==> !r.conn.writeOn)
  {
    IsendWritesAll(s, msg, ws);
    hide Isend;
  }

  /** A connection that has not been attached sends nothing. */
  lemma SendUnattached(s: Conn, msg: seq<Byte>, ws: seq<WriteResult>)
    requires !s.attached
    ensures SendMsg(s, msg, ws) == Sent(s, msg, ws)
  {
  }

  // ----- the echo -----

  /** All input of an echo connection goes out when it is offered. */
  lemma OfferedEchoes(s: Conn, acts: seq<Act>, ws: seq<WriteResult>)
    requires s.cb == Echo && s.attached && AllFair(ws)
    ensures var r := Offered(s, acts, ws);
            && r.input == [] && r.attached && r.cb == s.cb && r.status == s.status
            && (!s.writeOn ==> r.written == s.written + s.input && r.output == s.output)
            && (s.writeOn ==> r.written == s.written && r.output == s.output + s.input)
            && (!s.writeOn && NoAgain(ws) ==> !r.writeOn)
  {
    if s.input == [] {
      assert s.written + [] == s.written && s.output + [] == s.output;
    } else {
      var s1 := s.(offers := s.offers + [Offer(s.status, s.input)]);
      SendTakesAll(s1, s.input, ws);
      ActSameSocket(s1, SendInput, ws);
      assert [SendInput][1..] == [];
      assert RunActs(s1, [SendInput], ws) == DoAct(s1, SendInput, ws).conn;
      hide SendMsg, RunActs;
    }
  }

  /** The read loop of an echo connection ends with nothing left in the input: what was there and
      what was read is on the socket, or queued if write interest was on. */
  lemma {:induction false} ReadLoopEchoes(s: Conn, rs: seq<ReadResult>, acts: seq<Act>, ws: seq<WriteResult>)
    requires s.status == Connected && s.cb == Echo && s.attached && AllFair(ws)
    ensures var r, all := ReadLoop(s, rs, acts, ws), s.input + if s.fdOpen then Delivered(rs) else [];
            && r.input == []
            && (!s.writeOn ==> r.written == s.written + all && r.output == s.output)
            && (s.writeOn ==> r.written == s.written && r.output == s.output + all)
            && (!s.writeOn && NoAgain(ws) ==> !r.writeOn)
            && (r.status == Connected ==> r.cb == Echo) && (r.status == Connected || r.status == Closed)
    decreases |rs|
  {
    OfferedEchoes(s, acts, ws);
    hide Offered;
    assert s.input + [] == s.input;
    if s.fdOpen && rs != [] {
      match rs[0]
      case Got(data) =>
        if data != [] {
          ReadLoopEchoes(s.(input := s.input + data, received := s.received + data), rs[1..], acts, ws);
          assert s.input + data + Delivered(rs[1..]) == s.input + (data + Delivered(rs[1..]));
        }
      case ReadEintr => ReadLoopEchoes(s, rs[1..], acts, ws);
      case _ =>
    }
  }

  /** An event in whose course write reports no error. */
  predicate FairEvent(e: Event) {
    match e
    case Readable(_, _, _, ws) => AllFair(ws)
    case Writable(_, _, ws) => AllFair(ws)
    case ChannelClosed(_, ws) => AllFair(ws)
    case _ => true
  }

  predicate PromptEvent(e: Event) {
    FairEvent(e) && match e
      case Readable(_, _, _, ws) => NoAgain(ws)
      case Writable(_, _, ws) => NoAgain(ws)
      case ChannelClosed(_, ws) => NoAgain(ws)
      case _ => true
  }

  /** An attached echo connection that has passed on all it has read. */
  ghost predicate Fluent(s: Conn) {
    && Echoing(s) && Attachment(s) && s.status != Invalid && s.input == []
    && (s.status == Handshaking || s.status == Connected ==> s.cb == Echo)
  }

  /** And has written it. */
  ghost predicate Prompt(s: Conn) {
    Fluent(s) && s.output == [] && (s.status == Connected ==> !s.writeOn)
  }

  lemma HandshakeKeeps(s: Conn, writable: bool, acts: seq<Act>, ws: seq<WriteResult>)
    requires Fluent(s) && s.status == Handshaking
    ensures var r := Handshake(s, writable, acts, ws);
            Fluent(r) && (Prompt(s) ==> Prompt(r)) && (r.status == Connected || r.status == Failed)
  {
    HandshakeFine(s, writable, acts, ws);
    EchoHandshake(s, writable, acts, ws);
    hide Echoing;
  }

  lemma HandleReadKeeps(s: Conn, writable: bool, rs: seq<ReadResult>, acts: seq<Act>, ws: seq<WriteResult>)
    requires Fluent(s) && AllFair(ws)
    ensures var r := HandleRead(s, writable, rs, acts, ws);
            Fluent(r) && (Prompt(s) && NoAgain(ws) ==> Prompt(r))
  {
    var s1 := if s.status == Handshaking then Handshake(s, writable, acts, ws) else s;
    if s.status == Handshaking {
      HandshakeKeeps(s, writable, acts, ws);
    }
    HandleReadFine(s, writable, rs, acts, ws);
    EchoReadLoop(s1, rs, acts, ws);
    if s1.status == Connected {
      ReadLoopEchoes(s1, rs, acts, ws);
      if Prompt(s1) && NoAgain(ws) {
        PromptOutput(s1, rs, acts, ws);
      }
      hide ReadLoop, Handshake, Echoing;
    } else {
      hide Handshake, Echoing;
    }
  }

  lemma PromptOutput(s: Conn, rs: seq<ReadResult>, acts: seq<Act>, ws: seq<WriteResult>)
    requires s.status == Connected && s.cb == Echo && s.attached && AllFair(ws) && NoAgain(ws)
    requires !s.writeOn && s.output == []
    ensures var r := ReadLoop(s, rs, acts, ws); r.output == [] && !r.writeOn
  {
    ReadLoopEchoes(s, rs, acts, ws);
    hide ReadLoop;
  }

  lemma ApplyKeeps(s: Conn, e: Event)
    requires Fluent(s) && Enabled(s, e) && EchoEvent(e) && FairEvent(e)
    ensures Fluent(Apply(s, e)) && (Prompt(s) && PromptEvent(e) ==> Prompt(Apply(s, e)))
  {
    match e
    case Readable(writable, rs, acts, ws) => HandleReadKeeps(s, writable, rs, acts, ws); hide HandleRead, Fluent;
    case Writable(writable, acts, ws) =>
      if s.status == Handshaking { HandshakeKeeps(s, writable, acts, ws); }
      hide Handshake, Fluent;
    case ChannelClosed(acts, ws) =>
      HandleReadKeeps(s.(fdOpen := false), false, [], acts, ws);
      hide HandleRead, Echoing;
    case _ =>
  }

  /** The echo server writes: in every run in which write reports no error, nothing stays in the
      input at a handler boundary, so what was read has been written or is queued; and without
      EAGAIN all of it has been written. */
  lemma {:induction false} EchoReaches(s: Conn, es: seq<Event>)
    requires Fluent(s)
    requires forall i :: 0 <= i < |es| ==> EchoEvent(es[i]) && FairEvent(es[i])
    ensures Fluent(Run(s, es))
    ensures Prompt(s) && (forall i :: 0 <= i < |es| ==> PromptEvent(es[i])) ==> Prompt(Run(s, es))
    decreases |es|
  {
    hide Apply, Enabled, Fluent, EchoEvent, FairEvent, PromptEvent;
    hide Prompt;
    if es != [] {
      if Enabled(s, es[0]) {
        ApplyKeeps(s, es[0]);
        EchoReaches(Apply(s, es[0]), es[1..]);
      } else {
        EchoReaches(s, es[1..]);
      }
    }
  }

  lemma FluentMeans(s: Conn)
    requires Fluent(s)
    ensures s.input == [] && s.received == s.written + s.output
    ensures Prompt(s) ==> s.received == s.written
  {
    assert s.written + s.output + [] == s.written + s.output;
    assert s.written + [] == s.written;
  }

  // ----- any other callback -----

  /** A callback that takes the first n bytes and answers: the rest stays, and the answer is written
      behind everything written before. */
  lemma CustomReplies(s: Conn, data: seq<Byte>, n: nat, reply: seq<Byte>)
    requires s.status == Connected && s.attached && s.fdOpen && s.cb == Custom && !s.writeOn && data != []
    ensures var r, all := HandleRead(s, true, [Got(data), ReadEagain], [Take(n), Send(reply)], []), s.input + data;
            && r.input == (if n < |all| then all[n..] else []) && r.written == s.written + reply
            && r.received == s.received + data && r.status == Connected && r.cb == Custom
  {
    var s1 := s.(input := s.input + data, received := s.received + data);
    var acts := [Take(n), Send(reply)];
    assert [Got(data), ReadEagain][1..] == [ReadEagain];
    assert ReadLoop(s, [Got(data), ReadEagain], acts, []) == ReadLoop(s1, [ReadEagain], acts, []);
    assert acts[1..] == [Send(reply)] && [Send(reply)][1..] == [];
    var s2 := s1.(offers := s1.offers + [Offer(s1.status, s1.input)]);
    var t := DoAct(s2, Take(n), []);
    assert RunActs(s2, acts, []) == RunActs(t.conn, [Send(reply)], t.ws);
    SendTakesAll(t.conn, reply, []);
    assert RunActs(t.conn, [Send(reply)], []) == DoAct(t.conn, Send(reply), []).conn;
    ActSameSocket(t.conn, Send(reply), []);
    hide SendMsg, Isend;
  }

  // ----- what is queued -----

  lemma ActKeepsOutput(s: Conn, act: Act, ws: seq<WriteResult>)
    ensures s.output <= DoAct(s, act, ws).conn.output
  {
    if act.SendInput? && s.attached && !s.writeOn {
      var sent := IsendWritesPrefix(s, s.input, ws);
    } else if act.Send? && s.attached && !s.writeOn {
      var sent := IsendWritesPrefix(s, act.data, ws);
    }
    hide Isend;
  }

  lemma {:induction false} ActsKeepOutput(s: Conn, acts: seq<Act>, ws: seq<WriteResult>)
    ensures s.output <= RunActs(s, acts, ws).output
    decreases |acts|
  {
    hide DoAct;
    if acts != [] {
      ActKeepsOutput(s, acts[0], ws);
      ActsKeepOutput(DoAct(s, acts[0], ws).conn, acts[1..], DoAct(s, acts[0], ws).ws);
    }
  }

  lemma OfferedKeepsOutput(s: Conn, acts: seq<Act>, ws: seq<WriteResult>)
    ensures s.output <= Offered(s, acts, ws).output && s.output <= Cleanup(s, acts, ws).output
  {
    hide RunActs;
    ActsKeepOutput(s.(offers := s.offers + [Offer(s.status, s.input)]), if s.cb == Echo then [SendInput] else acts, ws);
  }

  lemma {:induction false} ReadLoopKeepsOutput(s: Conn, rs: seq<ReadResult>, acts: seq<Act>, ws: seq<WriteResult>)
    ensures s.output <= ReadLoop(s, rs, acts, ws).output
    decreases |rs|
  {
    hide Offered, Cleanup;
    OfferedKeepsOutput(s, acts, ws);
    if s.status == Connected && s.fdOpen && rs != [] {
      match rs[0]
      case Got(data) =>
        if data != [] {
          ReadLoopKeepsOutput(s.(input := s.input + data, received := s.received + data), rs[1..], acts, ws);
        }
      case ReadEintr => ReadLoopKeepsOutput(s, rs[1..], acts, ws);
      case _ =>
    }
  }

  lemma ApplyKeepsOutput(s: Conn, e: Event)
    ensures s.output <= Apply(s, e).output
  {
    hide ReadLoop, Cleanup, DoAct;
    match e
    case Readable(writable, rs, acts, ws) =>
      OfferedKeepsOutput(s, acts, ws);
      ReadLoopKeepsOutput(if s.status == Handshaking then Handshake(s, writable, acts, ws) else s, rs, acts, ws);
    case Writable(_, acts, ws) => OfferedKeepsOutput(s, acts, ws);
    case ChannelClosed(acts, ws) =>
      var s1 := s.(fdOpen := false);
      OfferedKeepsOutput(s1, acts, ws);
      ReadLoopKeepsOutput(if s.status == Handshaking then Handshake(s1, false, acts, ws) else s1, [], acts, ws);
    case User(act, ws) => ActKeepsOutput(s, act, ws);
    case _ =>
  }

  /** Queued output is never written: whatever happens to a connection, it only grows. */
  lemma {:induction false} OutputOnlyGrows(s: Conn, es: seq<Event>)
    ensures s.output <= Run(s, es).output
    decreases |es|
  {
    hide Apply, Enabled;
    if es != [] {
      if Enabled(s, es[0]) {
        ApplyKeepsOutput(s, es[0]);
        OutputOnlyGrows(Apply(s, es[0]), es[1..]);
      } else {
        OutputOnlyGrows(s, es[1..]);
      }
    }
  }
}
