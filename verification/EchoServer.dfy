/** The echo server on the classes: any number of connections on one poller. */
module EchoServer {
  import Batches
  import opened Buffers
  import opened Pollers
  import opened Connections
  import opened ConnectionRuns
  import opened Replies
  import opened TcpConns

  /** What the poller and the socket answer for one event of a connection; Lost closes its
      channel. */
  datatype Answer =
    | CanRead(writable: bool, rs: seq<ReadResult>, ws: seq<WriteResult>)
    | CanWrite(writable: bool, ws: seq<WriteResult>)
    | Lost(ws: seq<WriteResult>)

  /** The event an answer makes, up to how the buffer cuts what is read. */
  ghost predicate Answers(e: Event, answer: Answer) {
    match answer
    case CanRead(writable, rs, ws) =>
      e.Readable? && e.writable == writable && e.acts == [] && e.ws == ws && Trimmed(e.rs, rs)
    case CanWrite(writable, ws) => e == Writable(writable, [], ws)
    case Lost(ws) => e == ChannelClosed([], ws)
  }

  /** And, on a connection that gets to read, as far as the answers go. */
  ghost predicate AnswersAt(s: Conn, e: Event, answer: Answer) {
    && Answers(e, answer)
    && (e.Readable? && answer.CanRead? && Reads(s, answer.writable) ==> ReadOut(e.rs, answer.rs))
  }

  /** An answer in which write reports no error, and one in which it does not say EAGAIN either. */
  predicate FairAnswer(answer: Answer) { AllFair(answer.ws) }

  predicate PromptAnswer(answer: Answer) { AllFair(answer.ws) && NoAgain(answer.ws) }

  /** One event of a run. */
  function Stepped(s: Conn, e: Event): Conn {
    if Enabled(s, e) then Apply(s, e) else s
  }

  lemma {:induction false} RunMore(s: Conn, es: seq<Event>, e: Event)
    ensures Run(s, es + [e]) == Stepped(Run(s, es), e)
    decreases |es|
  {
    hide Enabled, Apply;
    if es == [] {
      assert es + [e] == [e];
    } else {
      assert (es + [e])[1..] == es[1..] + [e];
      RunMore(Stepped(s, es[0]), es[1..], e);
    }
  }

  // ----- one connection -----

  /** An attached connection on the poller, whose channel may have been closed. */
  ghost predicate Served(c: TcpConn, poller: PollerEpoll, known: set<Channel>)
    reads c, c.Footprint(), c.Socket(), c.input, c.output
  {
    && c.Valid()
    && c.channel != null && c.channel.poller == poller && c.channel in known && c.channel.fd != 0
  }

  lemma AnswerApplies(s: Conn, e: Event)
    requires s.attached && s.fdOpen
    ensures e.Readable? ==> Stepped(s, e) == Connections.HandleRead(s, e.writable, e.rs, e.acts, e.ws)
    ensures e.Writable? ==> Stepped(s, e) == Connections.HandleWrite(s, e.writable, e.acts, e.ws)
    ensures e.ChannelClosed? ==> Stepped(s, e) == Apply(s, e)
  {
  }

  /** One event of one connection; a connection whose channel is closed has none any more. */
  method ServeOne(c: TcpConn, poller: PollerEpoll, answer: Answer) returns (ghost e: Event)
    requires poller.Valid() && Served(c, poller, poller.known)
    modifies c.Footprint(), c.Socket()`events, c.Socket()`fd, poller`live, poller`log, poller.active
    ensures poller.Valid() && poller.known == old(poller.known) && Served(c, poller, poller.known)
    ensures c.channel == old(c.channel) && fresh(c.Footprint() - old(c.Footprint()))
    ensures AnswersAt(old(c.State()), e, answer) && c.State() == Stepped(old(c.State()), e)
  {
    hide Stepped, Trimmed, ReadOut, Connections.HandleRead, Connections.HandleWrite;
    ghost var s := c.State();
    if c.channel.fd > 0 {
      match answer {
        case CanRead(writable, rs, ws) =>
          ghost var took := c.HandleReadOn(poller, writable, rs, [], ws);
          e := Readable(writable, took, [], ws);
        case CanWrite(writable, ws) =>
          c.HandleWriteOn(poller, writable, [], ws);
          e := Writable(writable, [], ws);
        case Lost(ws) =>
          c.CloseChannel([], ws);
          e := ChannelClosed([], ws);
      }
      AnswerApplies(s, e);
    } else {
      e := Unanswered(answer);
      ClosedStays(s, e);
      assert !s.fdOpen;
    }
  }

  ghost function Unanswered(answer: Answer): (e: Event)
    ensures Answers(e, answer) && (e.Readable? || e.Writable? || e.ChannelClosed?)
  {
    match answer
    case CanRead(writable, rs, ws) => Readable(writable, rs, [], ws)
    case CanWrite(writable, ws) => Writable(writable, [], ws)
    case Lost(ws) => ChannelClosed([], ws)
  }

  lemma ClosedStays(s: Conn, e: Event)
    requires !s.fdOpen && (e.Readable? || e.Writable? || e.ChannelClosed?)
    ensures Stepped(s, e) == s
  {
  }

  /** A connection attached to fd, with the echo callback. */
  method Open(poller: PollerEpoll, fd: int) returns (c: TcpConn)
    requires poller.Valid() && fd > 0
    modifies poller
    ensures poller.Valid() && Served(c, poller, poller.known) && poller.known == old(poller.known) + c.Socket()
    ensures fresh(c) && fresh(c.Footprint()) && fresh(c.Socket())
    ensures c.State() == Run(New, Opening)
  {
    hide PollerEpoll.ValidBut;
    OpeningRun();
    c := new TcpConn();
    c.Attach(poller, fd);
    c.OnRead(Echo);
  }

  const Opening: seq<Event> := [Attach, OnRead(Echo)]

  lemma OpeningRun()
    ensures Run(New, Opening) == Apply(Apply(New, Attach), OnRead(Echo))
  {
    RunFirst(New, Attach, [OnRead(Echo)]);
    assert Opening == [Attach] + [OnRead(Echo)];
    RunFirst(Apply(New, Attach), OnRead(Echo), []);
    assert [OnRead(Echo)] + [] == [OnRead(Echo)];
  }

  // ----- many connections -----

  /** Connections on one poller that share neither storage nor a channel. */
  ghost predicate Pool(conns: seq<TcpConn>, poller: PollerEpoll)
    reads *
  {
    && poller.Valid()
    && (forall i :: 0 <= i < |conns| ==> Served(conns[i], poller, poller.known))
    && Apart(conns)
  }

  ghost predicate Apart(conns: seq<TcpConn>)
    reads *
  {
    forall i, j :: 0 <= i < j < |conns| ==>
      conns[i].Footprint() !! conns[j].Footprint() && conns[i].channel != conns[j].channel
  }

  /** Nothing of the connection changes. */
  twostate predicate Untouched(c: TcpConn)
    reads c, c.input, c.output, c.Footprint(), c.Socket()
  {
    && unchanged(c) && unchanged(c.input) && unchanged(c.output)
    && (c.input.buf != null ==> unchanged(c.input.buf))
    && (c.output.buf != null ==> unchanged(c.output.buf))
    && (c.channel != null ==> unchanged(c.channel))
  }

  twostate lemma UntouchedStays(c: TcpConn)
    requires old(c.Valid()) && Untouched(c)
    ensures c.channel == old(c.channel) && c.Footprint() == old(c.Footprint())
    ensures c.Valid() && c.State() == old(c.State())
    ensures c.channel != null ==> c.channel.fd == old(c.channel.fd)
  {
  }

  method ServeFramed(conns: seq<TcpConn>, poller: PollerEpoll, i: nat, answer: Answer) returns (ghost e: Event)
    requires Pool(conns, poller) && i < |conns|
    modifies conns[i].Footprint(), conns[i].Socket()`events, conns[i].Socket()`fd
    modifies poller`live, poller`log, poller.active
    ensures poller.Valid() && poller.known == old(poller.known) && Served(conns[i], poller, poller.known)
    ensures conns[i].channel == old(conns[i].channel)
    ensures fresh(conns[i].Footprint() - old(conns[i].Footprint()))
    ensures AnswersAt(old(conns[i].State()), e, answer)
    ensures conns[i].State() == Stepped(old(conns[i].State()), e)
    ensures forall k :: 0 <= k < |conns| && k != i ==> Untouched(conns[k])
  {
    hide PollerEpoll.ValidBut, AnswersAt, Stepped;
    e := ServeOne(conns[i], poller, answer);
    forall k | 0 <= k < |conns| && k != i ensures Untouched(conns[k]) {
      assert old(Served(conns[k], poller, poller.known)) && old(conns[k].Footprint() !! conns[i].Footprint());
      assert old(conns[k].channel != conns[i].channel);
      hide Pool, Served, TcpConn.State;
    }
  }

  method ServeApart(conns: seq<TcpConn>, poller: PollerEpoll, i: nat, answer: Answer) returns (ghost e: Event)
    requires Pool(conns, poller) && i < |conns|
    modifies conns[i].Footprint(), conns[i].Socket()`events, conns[i].Socket()`fd
    modifies poller`live, poller`log, poller.active
    ensures poller.Valid() && AnswersAt(old(conns[i].State()), e, answer)
    ensures fresh(conns[i].Footprint() - old(conns[i].Footprint()))
    ensures forall k :: 0 <= k < |conns| ==>
              && conns[k].channel == old(conns[k].channel) && Served(conns[k], poller, poller.known)
              && (k != i ==> conns[k].Footprint() == old(conns[k].Footprint()))
              && conns[k].State() == if k == i then Stepped(old(conns[k].State()), e) else old(conns[k].State())
  {
    hide PollerEpoll.ValidBut, AnswersAt, Stepped, Untouched, TcpConn.Valid, TcpConn.State, TcpConn.Footprint;
    e := ServeFramed(conns, poller, i, answer);
    forall k | 0 <= k < |conns| && k != i
      ensures conns[k].channel == old(conns[k].channel) && conns[k].Footprint() == old(conns[k].Footprint())
      ensures Served(conns[k], poller, poller.known) && conns[k].State() == old(conns[k].State())
    {
      assert old(Served(conns[k], poller, poller.known));
      UntouchedStays(conns[k]);
    }
  }

  method ServeAt(conns: seq<TcpConn>, poller: PollerEpoll, i: nat, answer: Answer) returns (ghost e: Event)
    requires Pool(conns, poller) && i < |conns|
    modifies conns[i].Footprint(), conns[i].Socket()`events, conns[i].Socket()`fd
    modifies poller`live, poller`log, poller.active
    ensures Pool(conns, poller) && AnswersAt(old(conns[i].State()), e, answer)
    ensures forall k :: 0 <= k < |conns| ==>
              && conns[k].channel == old(conns[k].channel)
              && fresh(conns[k].Footprint() - old(conns[k].Footprint()))
              && conns[k].Valid()
              && conns[k].State() == if k == i then Stepped(old(conns[k].State()), e) else old(conns[k].State())
  {
    hide PollerEpoll.ValidBut, AnswersAt, Stepped, TcpConn.State, TcpConn.Valid, Apart;
    e := ServeApart(conns, poller, i, answer);
    StillApart(conns, i);
  }

  /** Footprints that grow into new storage only stay apart. */
  twostate lemma StillApart(conns: seq<TcpConn>, new i: nat)
    requires old(Apart(conns)) && i < |conns|
    requires fresh(conns[i].Footprint() - old(conns[i].Footprint()))
    requires forall k :: 0 <= k < |conns| ==>
               && conns[k].channel == old(conns[k].channel)
               && (k != i ==> conns[k].Footprint() == old(conns[k].Footprint()))
    ensures Apart(conns)
  {
    forall k, l | 0 <= k < l < |conns|
      ensures conns[k].Footprint() !! conns[l].Footprint() && conns[k].channel != conns[l].channel
    {
      assert old(conns[k].Footprint() !! conns[l].Footprint() && conns[k].channel != conns[l].channel);
    }
  }

  method AcceptApart(conns: seq<TcpConn>, poller: PollerEpoll, fd: int) returns (c: TcpConn)
    requires Pool(conns, poller) && fd > 0
    modifies poller
    ensures poller.Valid() && Served(c, poller, poller.known) && poller.known == old(poller.known) + c.Socket()
    ensures fresh(c) && fresh(c.Footprint()) && fresh(c.Socket()) && c.State() == Run(New, Opening)
    ensures forall k :: 0 <= k < |conns| ==> Untouched(conns[k])
  {
    hide PollerEpoll.ValidBut, TcpConn.State, Run;
    c := Open(poller, fd);
    forall k | 0 <= k < |conns| ensures Untouched(conns[k]) {
      assert old(Served(conns[k], poller, poller.known));
    }
  }

  /** accept: one more connection, which shares nothing with the others. */
  method Accept(conns: seq<TcpConn>, poller: PollerEpoll, fd: int) returns (c: TcpConn)
    requires Pool(conns, poller) && fd > 0
    modifies poller
    ensures Pool(conns + [c], poller) && fresh(c.Footprint()) && fresh(c.Socket())
    ensures c.Valid() && c.State() == Run(New, Opening)
    ensures forall k :: 0 <= k < |conns| ==>
              && conns[k].channel == old(conns[k].channel) && conns[k].Footprint() == old(conns[k].Footprint())
              && conns[k].Valid() && conns[k].State() == old(conns[k].State())
  {
    hide PollerEpoll.ValidBut, TcpConn.State, TcpConn.Valid, Run, Untouched, Apart;
    c := AcceptApart(conns, poller, fd);
    forall k | 0 <= k < |conns|
      ensures conns[k].channel == old(conns[k].channel) && conns[k].Footprint() == old(conns[k].Footprint())
      ensures Served(conns[k], poller, poller.known) && conns[k].State() == old(conns[k].State())
    {
      assert old(Served(conns[k], poller, poller.known));
      UntouchedStays(conns[k]);
    }
    JoinsApart(conns, c);
  }

  /** A connection in new storage and with a new channel stays apart from the others. */
  twostate lemma JoinsApart(conns: seq<TcpConn>, new c: TcpConn)
    requires old(Apart(conns))
    requires fresh(c.Footprint()) && fresh(c.Socket()) && c.channel != null
    requires forall k :: 0 <= k < |conns| ==>
               conns[k].channel == old(conns[k].channel) && conns[k].Footprint() == old(conns[k].Footprint())
    ensures Apart(conns + [c])
  {
    var all := conns + [c];
    forall k, l | 0 <= k < l < |all|
      ensures all[k].Footprint() !! all[l].Footprint() && all[k].channel != all[l].channel
    {
      if l < |conns| {
        assert old(conns[k].Footprint() !! conns[l].Footprint() && conns[k].channel != conns[l].channel);
      }
    }
  }

  // ----- the server -----

  ghost function Storage(conns: seq<TcpConn>): set<object>
    reads *
  {
    set i, o | 0 <= i < |conns| && o in conns[i].Footprint() :: o
  }

  ghost function Sockets(conns: seq<TcpConn>): set<Channel>
    reads *
  {
    set i, ch | 0 <= i < |conns| && ch in conns[i].Socket() :: ch
  }

  lemma StorageMore(conns: seq<TcpConn>, c: TcpConn)
    ensures Storage(conns + [c]) == Storage(conns) + c.Footprint()
    ensures Sockets(conns + [c]) == Sockets(conns) + c.Socket()
  {
    hide TcpConn.Footprint, TcpConn.Socket;
    var all := conns + [c];
    assert all[|conns|] == c && forall i :: 0 <= i < |conns| ==> all[i] == conns[i];
    forall o | o in Storage(conns) + c.Footprint() ensures o in Storage(all) {
      if o in Storage(conns) {
        var i :| 0 <= i < |conns| && o in conns[i].Footprint();
        assert o in all[i].Footprint();
      } else {
        assert o in all[|conns|].Footprint();
      }
    }
    forall ch | ch in Sockets(conns) + c.Socket() ensures ch in Sockets(all) {
      if ch in Sockets(conns) {
        var i :| 0 <= i < |conns| && ch in conns[i].Socket();
        assert ch in all[i].Socket();
      } else {
        assert ch in all[|conns|].Socket();
      }
    }
  }

  /** Each connection is where a run of module Connections ends. */
  ghost predicate Ran(conns: seq<TcpConn>, runs: seq<seq<Event>>)
    reads *
  {
    && |conns| == |runs|
    && forall i :: 0 <= i < |conns| ==> conns[i].Valid() && conns[i].State() == Run(New, runs[i])
  }

  /** accept, for the pool as a whole. */
  method Enter(conns: seq<TcpConn>, poller: PollerEpoll, fd: int, ghost runs: seq<seq<Event>>)
    returns (conns': seq<TcpConn>)
    requires Pool(conns, poller) && Ran(conns, runs) && fd > 0
    modifies poller
    ensures Pool(conns', poller) && Ran(conns', runs + [Opening]) && |conns'| == |conns| + 1
    ensures fresh(Storage(conns') - old(Storage(conns))) && fresh(Sockets(conns') - old(Sockets(conns)))
  {
    hide Pool, TcpConn.Footprint, TcpConn.State, Run;
    var c := Accept(conns, poller, fd);
    conns' := conns + [c];
    StorageMore(conns, c);
    forall k | 0 <= k < |conns| ensures conns[k].Socket() == old(conns[k].Socket()) {
    }
    assert Storage(conns) == old(Storage(conns)) && Sockets(conns) == old(Sockets(conns));
  }

  /** An event of one connection, for the pool as a whole. */
  method Turn(conns: seq<TcpConn>, poller: PollerEpoll, i: nat, answer: Answer, ghost runs: seq<seq<Event>>)
    returns (ghost e: Event)
    requires Pool(conns, poller) && Ran(conns, runs) && i < |conns|
    modifies Storage(conns), Sockets(conns), poller, poller.active
    ensures Pool(conns, poller) && AnswersAt(Run(New, runs[i]), e, answer)
    ensures i < |runs| && Ran(conns, runs[i := runs[i] + [e]])
    ensures fresh(Storage(conns) - old(Storage(conns))) && Sockets(conns) == old(Sockets(conns))
  {
    hide Pool, AnswersAt, Stepped, Run, TcpConn.Footprint, TcpConn.State, TcpConn.Valid;
    assert conns[i].Footprint() <= Storage(conns) && conns[i].Socket() <= Sockets(conns);
    e := ServeAt(conns, poller, i, answer);
    assert Ran(conns, runs[i := runs[i] + [e]]) by {
      RunMore(New, runs[i], e);
      hide Storage, Sockets, TcpConn.Socket;
    }
    hide Ran;
    forall k | 0 <= k < |conns| ensures conns[k].Socket() == old(conns[k].Socket()) {
    }
    hide TcpConn.Socket;
    forall o | o in Storage(conns) && o !in old(Storage(conns)) ensures fresh(o) {
      var k :| 0 <= k < |conns| && o in conns[k].Footprint();
      assert o !in old(conns[k].Footprint());
    }
  }

  /** What happens to the server: a new connection, or an event of one it has. */
  datatype Happening = Accepted(fd: int) | Of(i: nat, answer: Answer)

  /** The runs that what has happened makes of the connections. */
  ghost predicate Explains(runs: seq<seq<Event>>, hs: seq<Happening>)
    decreases |hs|
  {
    if hs == [] then runs == []
    else
      var before := hs[..|hs| - 1];
      match hs[|hs| - 1]
      case Accepted(fd) =>
        if fd <= 0 then Explains(runs, before)
        else runs != [] && runs[|runs| - 1] == Opening && Explains(runs[..|runs| - 1], before)
      case Of(i, answer) =>
        if i >= |runs| then Explains(runs, before)
        else
          var run := runs[i];
          && run != [] && AnswersAt(Run(New, run[..|run| - 1]), run[|run| - 1], answer)
          && Explains(runs[i := run[..|run| - 1]], before)
  }

  predicate AllFairIn(hs: seq<Happening>) {
    forall n :: 0 <= n < |hs| && hs[n].Of? ==> FairAnswer(hs[n].answer)
  }

  predicate AllPromptIn(hs: seq<Happening>) {
    forall n :: 0 <= n < |hs| && hs[n].Of? ==> PromptAnswer(hs[n].answer)
  }

  /** Each run begins with the opening of its connection. */
  lemma {:induction false} ExplainedOpens(runs: seq<seq<Event>>, hs: seq<Happening>, i: nat)
    requires Explains(runs, hs) && i < |runs|
    ensures Opening <= runs[i]
    decreases |hs|
  {
    var before := hs[..|hs| - 1];
    match hs[|hs| - 1]
    case Accepted(fd) =>
      if fd <= 0 {
        ExplainedOpens(runs, before, i);
      } else if i < |runs| - 1 {
        ExplainedOpens(runs[..|runs| - 1], before, i);
      }
    case Of(k, answer) =>
      if k >= |runs| {
        ExplainedOpens(runs, before, i);
      } else {
        ExplainedOpens(runs[k := runs[k][..|runs[k]| - 1]], before, i);
      }
  }

  lemma AnswerMakes(e: Event, answer: Answer)
    requires Answers(e, answer)
    ensures EchoEvent(e) && (FairAnswer(answer) ==> FairEvent(e)) && (PromptAnswer(answer) ==> PromptEvent(e))
  {
  }

  /** What happens to a connection makes events of a server with the echo callback only. */
  lemma {:induction false} ExplainedEcho(runs: seq<seq<Event>>, hs: seq<Happening>, i: nat, j: nat)
    requires Explains(runs, hs) && i < |runs| && j < |runs[i]|
    ensures EchoEvent(runs[i][j])
    ensures AllFairIn(hs) ==> FairEvent(runs[i][j])
    ensures AllPromptIn(hs) ==> PromptEvent(runs[i][j])
    decreases |hs|
  {
    hide Answers, FairAnswer, PromptAnswer, Run;
    var before := hs[..|hs| - 1];
    match hs[|hs| - 1]
    case Accepted(fd) =>
      if fd <= 0 {
        ExplainedEcho(runs, before, i, j);
      } else if i < |runs| - 1 {
        ExplainedEcho(runs[..|runs| - 1], before, i, j);
      }
    case Of(k, answer) =>
      if k >= |runs| {
        ExplainedEcho(runs, before, i, j);
      } else if i != k || j < |runs[k]| - 1 {
        ExplainedEcho(runs[k := runs[k][..|runs[k]| - 1]], before, i, j);
      } else {
        AnswerMakes(runs[i][j], answer);
      }
  }

  lemma EmptyPool(poller: PollerEpoll)
    requires poller.Valid()
    ensures Pool([], poller) && Ran([], []) && Storage([]) == {} && Sockets([]) == {}
  {
  }

  /** What the echo server promises about a connection. */
  ghost predicate Echoed(c: TcpConn, hs: seq<Happening>)
    reads c, c.Footprint(), c.input, c.output
  {
    && c.Valid()
    && c.received == c.written + c.output.Contents() + c.input.Contents()
    && (AllFairIn(hs) ==> c.received == c.written + c.output.Contents() && c.input.Contents() == [])
    && (AllPromptIn(hs) ==> c.received == c.written)
  }

  lemma {:induction false} RunSplit(s: Conn, a: seq<Event>, b: seq<Event>)
    ensures Run(s, a + b) == Run(Run(s, a), b)
    decreases |a|
  {
    hide Apply, Enabled;
    if a == [] {
      assert a + b == b;
    } else {
      assert (a + b)[1..] == a[1..] + b;
      RunSplit(Stepped(s, a[0]), a[1..], b);
    }
  }

  lemma OpeningIsPrompt()
    ensures Prompt(Run(New, Opening))
  {
    OpeningRun();
    hide Run;
  }

  lemma RunEchoes(run: seq<Event>, fair: bool, prompt: bool)
    requires Opening <= run && forall j :: 0 <= j < |run| ==> EchoEvent(run[j])
    requires fair ==> forall j :: 0 <= j < |run| ==> FairEvent(run[j])
    requires prompt ==> forall j :: 0 <= j < |run| ==> PromptEvent(run[j])
    ensures var s := Run(New, run);
            && s.received == s.written + s.output + s.input
            && (fair ==> s.input == [] && s.received == s.written + s.output)
            && (prompt ==> s.received == s.written)
  {
    hide EchoEvent, FairEvent;
    EchoFromNew(run);
    if fair || prompt {
      var rest := run[|Opening|..];
      assert run == Opening + rest;
      RunSplit(New, Opening, rest);
      OpeningIsPrompt();
      forall j | 0 <= j < |rest| ensures FairEvent(rest[j]) && EchoEvent(rest[j]) && (prompt ==> PromptEvent(rest[j])) {
        assert rest[j] == run[j + |Opening|];
      }
      EchoReaches(Run(New, Opening), rest);
      FluentMeans(Run(New, run));
    }
    hide Run, Echoing;
  }

  lemma Conserved(conns: seq<TcpConn>, runs: seq<seq<Event>>, hs: seq<Happening>)
    requires Ran(conns, runs) && Explains(runs, hs)
    ensures forall i :: 0 <= i < |conns| ==> Echoed(conns[i], hs)
  {
    hide Explains, EchoEvent, FairEvent, PromptEvent, AllFairIn, AllPromptIn, Run;
    forall i | 0 <= i < |conns| ensures Echoed(conns[i], hs) {
      forall j | 0 <= j < |runs[i]|
        ensures EchoEvent(runs[i][j])
        ensures AllFairIn(hs) ==> FairEvent(runs[i][j])
        ensures AllPromptIn(hs) ==> PromptEvent(runs[i][j])
      {
        ExplainedEcho(runs, hs, i, j);
      }
      ExplainedOpens(runs, hs, i);
      RunEchoes(runs[i], AllFairIn(hs), AllPromptIn(hs));
    }
  }

  /** The echo server from its start: each connection runs through exactly the events that
      happened to it, and none loses, repeats or reorders a byte. As long as write reports no
      error nothing stays unsent in the input, and without EAGAIN all that was read has been
      written back. */
  method Serve(hs: seq<Happening>) returns (conns: seq<TcpConn>, ghost runs: seq<seq<Event>>)
    ensures Ran(conns, runs) && Explains(runs, hs)
    ensures forall i :: 0 <= i < |conns| ==> Echoed(conns[i], hs)
  {
    hide Pool, Echoed, Ran, Storage, Sockets, AnswersAt, Run, PollerEpoll.ValidBut, TcpConn.Valid;
    var poller := new PollerEpoll();
    conns, runs := [], [];
    EmptyPool(poller);
    var n := 0;
    while n < |hs|
      invariant 0 <= n <= |hs| && Pool(conns, poller) && fresh(poller) && fresh(poller.active)
      invariant forall o :: o in Storage(conns) ==> fresh(o)
      invariant forall ch :: ch in Sockets(conns) ==> fresh(ch)
      invariant |conns| == |runs| && Ran(conns, runs) && Explains(runs, hs[..n])
    {
      ghost var storage, sockets, was := Storage(conns), Sockets(conns), runs;
      label before:
      assert hs[..n + 1][..n] == hs[..n];
      match hs[n] {
        case Accepted(fd) =>
          if fd > 0 {
            conns := Enter(conns, poller, fd, runs);
            runs := runs + [Opening];
            assert runs[..|runs| - 1] == was;
          }
        case Of(i, answer) =>
          if i < |conns| {
            ghost var e := Turn(conns, poller, i, answer, runs);
            runs := runs[i := runs[i] + [e]];
            assert runs[i][..|runs[i]| - 1] == was[i] && runs[i := was[i]] == was;
          }
      }
      forall o | o in Storage(conns) ensures fresh(o) {
        assert o !in storage ==> fresh@before(o);
      }
      forall ch | ch in Sockets(conns) ensures fresh(ch) {
        assert ch !in sockets ==> fresh@before(ch);
      }
      n := n + 1;
    }
    assert hs[..n] == hs;
    Conserved(conns, runs, hs);
  }
}
