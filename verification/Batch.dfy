/** One batch of ready events, by channel id: what the dispatch loop of the poller does while
    callbacks close and open channels. */
module Batches {

  const READ_EVENT: bv16 := 1
  const WRITE_EVENT: bv16 := 4
  const ERROR_EVENT: bv16 := 8

  /** m_events with the flag f switched on or off. */
  function SetFlag(events: bv16, f: bv16, on: bool): bv16 {
    if on then events | f else events & !f
  }

  predicate Reads(events: bv16) { events & READ_EVENT != 0 }

  predicate Writes(events: bv16) { events & WRITE_EVENT != 0 }

  lemma ReadBits(e: bv16, on: bool)
    ensures (SetFlag(e, READ_EVENT, on) & READ_EVENT != 0) == on
    ensures SetFlag(e, READ_EVENT, on) & WRITE_EVENT == e & WRITE_EVENT
    ensures SetFlag(e, READ_EVENT, on) & 0xFFFE == e & 0xFFFE
  {
  }

  lemma WriteBits(e: bv16, on: bool)
    ensures (SetFlag(e, WRITE_EVENT, on) & WRITE_EVENT != 0) == on
    ensures SetFlag(e, WRITE_EVENT, on) & READ_EVENT == e & READ_EVENT
    ensures SetFlag(e, WRITE_EVENT, on) & 0xFFFB == e & 0xFFFB
  {
  }

  /** enableRead decides its own flag and leaves every other bit alone. */
  lemma ReadFlag(events: bv16, on: bool)
    ensures var e := SetFlag(events, READ_EVENT, on);
            Reads(e) == on && Writes(e) == Writes(events) && e & 0xFFFE == events & 0xFFFE
  {
    ReadBits(events, on);
    hide SetFlag;
  }

  lemma WriteFlag(events: bv16, on: bool)
    ensures var e := SetFlag(events, WRITE_EVENT, on);
            Writes(e) == on && Reads(e) == Reads(events) && e & 0xFFFB == events & 0xFFFB
  {
    WriteBits(events, on);
    hide SetFlag;
  }

  /** One m_activeEvents entry; channel ids start at 1, and id 0 is the null pointer. */
  datatype Ready = Ready(id: nat, events: bv16)

  datatype Kind = Read | Write | Unknown

  function KindOf(events: bv16): Kind {
    if events & (ERROR_EVENT | READ_EVENT) != 0 then Read
    else if events & WRITE_EVENT != 0 then Write
    else Unknown
  }

  /** What a callback does to the poller, in the order it happens. The read handler that
      close runs on its way is part of the sequence. */
  datatype Action = Close(id: nat) | Open(fd: int, events: bv16)

  datatype Event = Dispatched(id: nat, kind: Kind) | Closed(id: nat) | Opened(id: nat)

  /** slots is m_activeEvents[0..m_lastActive]. */
  datatype Batch = Batch(live: set<nat>, lastId: nat, slots: seq<Ready>, log: seq<Event>)

  function Nulled(slots: seq<Ready>, id: nat): (r: seq<Ready>)
    ensures |r| == |slots|
    ensures forall i :: 0 <= i < |slots| ==> r[i] == if slots[i].id == id then slots[i].(id := 0) else slots[i]
  {
    seq(|slots|, i requires 0 <= i < |slots| => if slots[i].id == id then slots[i].(id := 0) else slots[i])
  }

  /** Closing a channel that is not open has no effect; fds are positive. */
  function Act(b: Batch, a: Action): Batch {
    match a
    case Close(id) =>
      if id in b.live then
        b.(live := b.live - {id}, slots := Nulled(b.slots, id), log := b.log + [Closed(id)])
      else b
    case Open(fd, _) =>
      if fd > 0 then
        b.(live := b.live + {b.lastId + 1}, lastId := b.lastId + 1, log := b.log + [Opened(b.lastId + 1)])
      else b
  }

  function Acts(b: Batch, actions: seq<Action>): (r: Batch)
    ensures |r.slots| == |b.slots|
    decreases |actions|
  {
    if actions == [] then b else Acts(Act(b, actions[0]), actions[1..])
  }

  /** What the i-th handler called does; handlers after the last script do nothing. */
  function First(scripts: seq<seq<Action>>): seq<Action> { if scripts == [] then [] else scripts[0] }

  function Rest(scripts: seq<seq<Action>>): seq<seq<Action>> { if scripts == [] then [] else scripts[1..] }

  /** The handler of the last slot runs; the slot itself still counts meanwhile. */
  function Handle(b: Batch, script: seq<Action>): (r: Batch)
    requires b.slots != []
    ensures |r.slots| == |b.slots|
  {
    var cur := b.slots[|b.slots| - 1];
    Acts(b.(log := b.log + [Dispatched(cur.id, KindOf(cur.events))]), script)
  }

  /** The loop over the batch. */
  function Dispatch(b: Batch, scripts: seq<seq<Action>>): (r: Batch)
    ensures r.slots == []
    decreases |b.slots|
  {
    if b.slots == [] then b
    else if b.slots[|b.slots| - 1].id == 0 then Dispatch(Next(b), scripts)
    else Dispatch(Next(Handle(b, First(scripts))), Rest(scripts))
  }

  function Next(b: Batch): Batch
    requires b.slots != []
  {
    b.(slots := b.slots[..|b.slots| - 1])
  }

  // ----- what holds throughout a batch -----

  /** The entries still to be visited are distinct open channels. */
  ghost predicate Sound(b: Batch) {
    && (forall id :: id in b.live ==> 1 <= id <= b.lastId)
    && (forall i :: 0 <= i < |b.slots| && b.slots[i].id != 0 ==> b.slots[i].id in b.live)
    && (forall i, j :: 0 <= i < j < |b.slots| && b.slots[i].id != 0 ==> b.slots[i].id != b.slots[j].id)
  }

  ghost predicate Pending(b: Batch, id: nat) {
    id != 0 && exists i :: 0 <= i < |b.slots| && b.slots[i].id == id
  }

  lemma ActKeepsSound(b: Batch, a: Action)
    requires Sound(b)
    ensures Sound(Act(b, a)) && b.lastId <= Act(b, a).lastId && b.log <= Act(b, a).log
    ensures forall id :: Pending(Act(b, a), id) <==> Pending(b, id) && !(a.Close? && id == a.id)
  {
  }

  /** The part of r's log that b's log does not have is about b's batch: channels closed or
      opened on the way are not pending afterwards, and what stopped being pending was closed. */
  lemma {:induction false} ActsKeepSound(b: Batch, actions: seq<Action>)
    requires Sound(b)
    ensures var r := Acts(b, actions); Sound(r) && b.lastId <= r.lastId && b.log <= r.log
    ensures forall i :: |b.log| <= i < |Acts(b, actions).log| ==>
              !Acts(b, actions).log[i].Dispatched? && !Pending(Acts(b, actions), Acts(b, actions).log[i].id)
    ensures forall id :: Pending(Acts(b, actions), id) ==> Pending(b, id)
    ensures forall i :: 0 <= i < |b.slots| ==>
              Acts(b, actions).slots[i].id == b.slots[i].id || Acts(b, actions).slots[i].id == 0
    ensures forall id :: Pending(b, id) && !Pending(Acts(b, actions), id) ==> ClosedSince(Acts(b, actions).log, |b.log|, id)
    decreases |actions|
  {
    if actions != [] {
      var b1, r := Act(b, actions[0]), Acts(b, actions);
      ActKeepsSound(b, actions[0]);
      PendingIsLive(b);
      ActsKeepSound(b1, actions[1..]);
      forall id | Pending(b, id) && !Pending(r, id)
        ensures ClosedSince(r.log, |b.log|, id)
      {
        if Pending(b1, id) {
          var i :| |b1.log| <= i < |r.log| && r.log[i] == Closed(id);
        } else {
          assert r.log[|b.log|] == Closed(id);
        }
      }
    }
  }

  ghost predicate ClosedSince(log: seq<Event>, from: nat, id: nat) {
    exists i :: from <= i < |log| && log[i] == Closed(id)
  }

  lemma PendingIsLive(b: Batch)
    requires Sound(b)
    ensures forall id: nat :: Pending(b, id) ==> id in b.live && 1 <= id <= b.lastId
  {
  }

  lemma NextPending(b: Batch)
    requires Sound(b) && b.slots != []
    ensures Sound(Next(b))
    ensures var cur := b.slots[|b.slots| - 1].id;
            forall id :: Pending(Next(b), id) <==> Pending(b, id) && id != cur
  {
  }

  ghost predicate DispatchedAt(log: seq<Event>, i: nat, id: nat) {
    i < |log| && log[i].Dispatched? && log[i].id == id
  }

  /** The course of a batch from the position from on, for the channels that were pending. */
  ghost predicate OnlyPending(b: Batch, log: seq<Event>) {
    forall i, id :: |b.log| <= i && DispatchedAt(log, i, id) ==> Pending(b, id)
  }

  ghost predicate OnceEach(log: seq<Event>, from: nat) {
    forall i, j, id :: from <= i < j && DispatchedAt(log, i, id) ==> !DispatchedAt(log, j, id)
  }

  ghost predicate NeverAfterClose(log: seq<Event>, from: nat) {
    forall i, j, id :: from <= i < j && i < |log| && log[i].id == id && !log[i].Dispatched? ==>
      !DispatchedAt(log, j, id)
  }

  ghost predicate WasDispatched(b: Batch, log: seq<Event>, p: nat)
    requires p < |b.slots|
  {
    exists i :: |b.log| <= i && DispatchedAt(log, i, b.slots[p].id)
  }

  /** The turn of slot p has begun at the position i of the log: a slot below it is dispatched. */
  ghost predicate TurnPassed(b: Batch, log: seq<Event>, p: nat, i: nat) {
    exists q, j :: 0 <= q < p && q < |b.slots| && b.slots[q].id != 0
                   && |b.log| <= j <= i && DispatchedAt(log, j, b.slots[q].id)
  }

  /** The channel of slot p was closed in the handler of a slot above p, when no slot below p
      had had its turn. */
  ghost predicate ClosedBefore(b: Batch, log: seq<Event>, p: nat)
    requires p < |b.slots|
  {
    exists i, r, j ::
      && |b.log| <= j < i < |log| && log[i] == Closed(b.slots[p].id)
      && p < r < |b.slots| && DispatchedAt(log, j, b.slots[r].id)
      && !TurnPassed(b, log, p, i)
  }

  /** A channel still open at its turn is dispatched. */
  ghost predicate AllConsidered(b: Batch, log: seq<Event>) {
    forall p :: 0 <= p < |b.slots| && b.slots[p].id != 0 ==>
      WasDispatched(b, log, p) || ClosedBefore(b, log, p)
  }

  /** b2 is b after the handler of its last slot: that channel is dispatched, then come
      events of the handler, none about a channel still pending. */
  ghost predicate Handled(b: Batch, b2: Batch) {
    && b.slots != [] && |b2.slots| == |b.slots| && Pending(b, b.slots[|b.slots| - 1].id)
    && (forall k :: 0 <= k < |b.slots| ==> b2.slots[k].id == b.slots[k].id || b2.slots[k].id == 0)
    && b.log <= b2.log && |b.log| < |b2.log|
    && DispatchedAt(b2.log, |b.log|, b.slots[|b.slots| - 1].id)
    && (forall i :: |b.log| < i < |b2.log| ==> !b2.log[i].Dispatched? && !Pending(Next(b2), b2.log[i].id))
    && !Pending(Next(b2), b.slots[|b.slots| - 1].id)
    && (forall id :: Pending(Next(b2), id) ==> Pending(b, id))
    && (forall id :: Pending(b, id) && !Pending(Next(b2), id) && id != b.slots[|b.slots| - 1].id ==>
          ClosedSince(b2.log, |b.log| + 1, id))
  }

  lemma HandleIsHandled(b: Batch, script: seq<Action>)
    requires Sound(b) && b.slots != [] && b.slots[|b.slots| - 1].id != 0
    ensures Sound(Handle(b, script)) && Handled(b, Handle(b, script))
  {
    var cur := b.slots[|b.slots| - 1];
    var b1 := b.(log := b.log + [Dispatched(cur.id, KindOf(cur.events))]);
    var b2 := Handle(b, script);
    assert forall id :: Pending(b1, id) == Pending(b, id);
    ActsKeepSound(b1, script);
    NextPending(b2);
    assert b2.log[|b.log|] == b1.log[|b.log|];
  }

  ghost predicate Safe(b: Batch, log: seq<Event>) {
    && b.log <= log
    && OnlyPending(b, log)
    && OnceEach(log, |b.log|)
    && NeverAfterClose(log, |b.log|)
    && AllConsidered(b, log)
  }

  lemma HandledOnlyPending(b: Batch, b2: Batch, log: seq<Event>)
    requires Handled(b, b2) && b2.log <= log && OnlyPending(Next(b2), log)
    ensures OnlyPending(b, log)
  {
  }

  lemma HandledOnce(b: Batch, b2: Batch, log: seq<Event>)
    requires Handled(b, b2) && b2.log <= log
    requires OnlyPending(Next(b2), log) && OnceEach(log, |b2.log|) && NeverAfterClose(log, |b2.log|)
    ensures OnceEach(log, |b.log|) && NeverAfterClose(log, |b.log|)
  {
  }

  /** The other channels of the batch are dispatched only after the handler has ended, and only
      if it left them in. */
  lemma DispatchedLater(b: Batch, b2: Batch, log: seq<Event>, q: nat, j: nat)
    requires Sound(b) && Sound(b2) && Handled(b, b2) && b2.log <= log && OnlyPending(Next(b2), log)
    requires q < |b.slots| - 1 && b.slots[q].id != 0
    requires |b.log| <= j && DispatchedAt(log, j, b.slots[q].id)
    ensures |b2.log| <= j && b2.slots[q].id == b.slots[q].id
  {
    assert forall i :: 0 <= i < |b2.log| ==> log[i] == b2.log[i];
    assert Pending(Next(b2), b.slots[q].id);
    var k :| 0 <= k < |Next(b2).slots| && Next(b2).slots[k].id == b.slots[q].id;
    assert b.slots[k].id == b.slots[q].id;
  }

  lemma TurnBack(b: Batch, b2: Batch, log: seq<Event>, p: nat, i: nat)
    requires Sound(b) && Sound(b2) && Handled(b, b2) && b2.log <= log && OnlyPending(Next(b2), log)
    requires p < |b.slots| - 1 && TurnPassed(b, log, p, i)
    ensures |b2.log| <= i && TurnPassed(Next(b2), log, p, i)
  {
    var q, j :| 0 <= q < p && q < |b.slots| && b.slots[q].id != 0
                && |b.log| <= j <= i && DispatchedAt(log, j, b.slots[q].id);
    DispatchedLater(b, b2, log, q, j);
    assert Next(b2).slots[q].id == b.slots[q].id;
  }

  /** A slot that the handler left in. */
  lemma KeptConsidered(b: Batch, b2: Batch, log: seq<Event>, p: nat)
    requires Sound(b) && Sound(b2) && Handled(b, b2) && b2.log <= log && OnlyPending(Next(b2), log)
    requires p < |b.slots| - 1 && b2.slots[p].id == b.slots[p].id != 0
    requires WasDispatched(Next(b2), log, p) || ClosedBefore(Next(b2), log, p)
    ensures WasDispatched(b, log, p) || ClosedBefore(b, log, p)
  {
    var n := Next(b2);
    assert n.slots[p].id == b.slots[p].id;
    if WasDispatched(n, log, p) {
      var i :| |n.log| <= i && DispatchedAt(log, i, n.slots[p].id);
      assert |b.log| <= i && DispatchedAt(log, i, b.slots[p].id);
    } else {
      var i, r, j :| |n.log| <= j < i < |log| && log[i] == Closed(n.slots[p].id)
                     && p < r < |n.slots| && DispatchedAt(log, j, n.slots[r].id) && !TurnPassed(n, log, p, i);
      if TurnPassed(b, log, p, i) {
        TurnBack(b, b2, log, p, i);
        assert false;
      }
      assert b.log <= n.log && n.slots[r].id == b2.slots[r].id;
      assert b2.slots[r].id == b.slots[r].id by {
        assert Pending(n, n.slots[r].id);
      }
    }
  }

  /** A slot that the handler nulled. */
  lemma NulledConsidered(b: Batch, b2: Batch, log: seq<Event>, p: nat)
    requires Sound(b) && Sound(b2) && Handled(b, b2) && b2.log <= log && OnlyPending(Next(b2), log)
    requires p < |b.slots| - 1 && b.slots[p].id != 0 && b2.slots[p].id == 0
    ensures ClosedBefore(b, log, p)
  {
    var id, top := b.slots[p].id, |b.slots| - 1;
    forall k | 0 <= k < top ensures b2.slots[k].id != id {
      assert b2.slots[k].id == b.slots[k].id || b2.slots[k].id == 0;
    }
    assert Pending(b, id) && id != b.slots[top].id;
    var i :| |b.log| + 1 <= i < |b2.log| && b2.log[i] == Closed(id);
    assert log[i] == b2.log[i] && log[|b.log|] == b2.log[|b.log|];
    assert DispatchedAt(log, |b.log|, b.slots[top].id);
    if TurnPassed(b, log, p, i) {
      TurnBack(b, b2, log, p, i);
    }
  }

  lemma HandledConsidered(b: Batch, b2: Batch, log: seq<Event>)
    requires Sound(b) && Sound(b2) && Handled(b, b2) && b2.log <= log
    requires OnlyPending(Next(b2), log) && AllConsidered(Next(b2), log)
    ensures AllConsidered(b, log)
  {
    forall p | 0 <= p < |b.slots| && b.slots[p].id != 0
      ensures WasDispatched(b, log, p) || ClosedBefore(b, log, p)
    {
      if p == |b.slots| - 1 {
        assert log[|b.log|] == b2.log[|b.log|];
        assert DispatchedAt(log, |b.log|, b.slots[p].id);
      } else if b2.slots[p].id == 0 {
        NulledConsidered(b, b2, log, p);
      } else {
        assert Next(b2).slots[p].id != 0;
        KeptConsidered(b, b2, log, p);
      }
    }
  }

  lemma SkippedTurn(b: Batch, log: seq<Event>, p: nat, i: nat)
    requires p < |b.slots| - 1 && TurnPassed(b, log, p, i)
    ensures TurnPassed(Next(b), log, p, i)
  {
    var q, j :| 0 <= q < p && q < |b.slots| && b.slots[q].id != 0
                && |b.log| <= j <= i && DispatchedAt(log, j, b.slots[q].id);
    assert Next(b).slots[q] == b.slots[q];
  }

  lemma SkippedClosed(b: Batch, log: seq<Event>, p: nat)
    requires p < |b.slots| - 1 && ClosedBefore(Next(b), log, p)
    ensures ClosedBefore(b, log, p)
  {
    var n := Next(b);
    var i, r, j :| |n.log| <= j < i < |log| && log[i] == Closed(n.slots[p].id)
                   && p < r < |n.slots| && DispatchedAt(log, j, n.slots[r].id) && !TurnPassed(n, log, p, i);
    assert n.slots[r] == b.slots[r] && DispatchedAt(log, j, b.slots[r].id);
    if TurnPassed(b, log, p, i) {
      SkippedTurn(b, log, p, i);
    }
    hide TurnPassed, DispatchedAt;
  }

  /** A nulled slot is passed over. */
  lemma SkippedConsidered(b: Batch, log: seq<Event>)
    requires b.slots != [] && b.slots[|b.slots| - 1].id == 0 && AllConsidered(Next(b), log)
    ensures AllConsidered(b, log)
  {
    hide ClosedBefore, DispatchedAt;
    forall p | 0 <= p < |b.slots| && b.slots[p].id != 0
      ensures WasDispatched(b, log, p) || ClosedBefore(b, log, p)
    {
      assert Next(b).slots[p] == b.slots[p];
      if !WasDispatched(Next(b), log, p) {
        SkippedClosed(b, log, p);
      }
    }
  }

  /** A batch dispatches only channels that were ready and open when it started, each at most
      once, none after it was closed or opened during the batch, and it skips only channels
      that were closed before their turn. */
  lemma {:induction false} BatchSafety(b: Batch, scripts: seq<seq<Action>>)
    requires Sound(b)
    ensures Sound(Dispatch(b, scripts)) && Safe(b, Dispatch(b, scripts).log)
    decreases |b.slots|
  {
    if b.slots != [] {
      var cur := b.slots[|b.slots| - 1];
      var r := Dispatch(b, scripts);
      if cur.id == 0 {
        NextPending(b);
        BatchSafety(Next(b), scripts);
        SkippedConsidered(b, r.log);
        hide AllConsidered;
      } else {
        var b2 := Handle(b, First(scripts));
        HandleIsHandled(b, First(scripts));
        NextPending(b2);
        hide Handle, Sound, Handled, OnlyPending, OnceEach, NeverAfterClose, AllConsidered;
        BatchSafety(Next(b2), Rest(scripts));
        HandledIsPrefix(b, b2);
        HandledOnlyPending(b, b2, r.log);
        HandledOnce(b, b2, r.log);
        HandledConsidered(b, b2, r.log);
      }
    }
  }

  lemma HandledIsPrefix(b: Batch, b2: Batch)
    requires Handled(b, b2)
    ensures b.log <= b2.log
  {
  }

  // ----- which handler -----

  /** The channel id came back ready in b for the given handler. */
  ghost predicate ReadyFor(b: Batch, id: nat, kind: Kind) {
    exists k :: 0 <= k < |b.slots| && b.slots[k].id == id != 0 && KindOf(b.slots[k].events) == kind
  }

  ghost predicate RightHandlers(b: Batch, log: seq<Event>) {
    forall i :: |b.log| <= i < |log| && log[i].Dispatched? ==> ReadyFor(b, log[i].id, log[i].kind)
  }

  lemma {:induction false} ActsKeepEvents(b: Batch, actions: seq<Action>)
    ensures var r := Acts(b, actions);
            && b.log <= r.log && (forall i :: |b.log| <= i < |r.log| ==> !r.log[i].Dispatched?)
            && forall k :: 0 <= k < |b.slots| && r.slots[k].id != 0 ==> r.slots[k] == b.slots[k]
    decreases |actions|
  {
    if actions != [] {
      ActsKeepEvents(Act(b, actions[0]), actions[1..]);
    }
  }

  /** A channel is dispatched to the handler that its own reported events ask for, however the
      handlers before it edited the batch. */
  lemma {:induction false} BatchHandlers(b: Batch, scripts: seq<seq<Action>>)
    ensures b.log <= Dispatch(b, scripts).log && RightHandlers(b, Dispatch(b, scripts).log)
    decreases |b.slots|
  {
    if b.slots != [] {
      var cur, log := b.slots[|b.slots| - 1], Dispatch(b, scripts).log;
      if cur.id == 0 {
        BatchHandlers(Next(b), scripts);
        HandlersStep(b, b, log);
      } else {
        var b1 := b.(log := b.log + [Dispatched(cur.id, KindOf(cur.events))]);
        var b2 := Handle(b, First(scripts));
        ActsKeepEvents(b1, First(scripts));
        BatchHandlers(Next(b2), Rest(scripts));
        assert b2.log[|b.log|] == b1.log[|b.log|];
        hide Handle, RightHandlers;
        HandlersStep(b, b2, log);
      }
    }
  }

  lemma HandlersStep(b: Batch, b2: Batch, log: seq<Event>)
    requires b.slots != [] && |b2.slots| == |b.slots| && b.log <= b2.log <= log
    requires forall k :: 0 <= k < |b.slots| && b2.slots[k].id != 0 ==> b2.slots[k] == b.slots[k]
    requires forall i :: |b.log| <= i < |b2.log| && b2.log[i].Dispatched? ==> ReadyFor(b, b2.log[i].id, b2.log[i].kind)
    requires RightHandlers(Next(b2), log)
    ensures RightHandlers(b, log)
  {
    forall i | |b.log| <= i < |log| && log[i].Dispatched? ensures ReadyFor(b, log[i].id, log[i].kind) {
      assert i < |b2.log| ==> log[i] == b2.log[i];
    }
  }

  // ----- order -----

  /** Dispatches follow the batch backwards. */
  lemma {:induction false} BatchOrder(b: Batch, scripts: seq<seq<Action>>, p: nat, q: nat, i: nat, j: nat)
    requires Sound(b) && p < q < |b.slots| && b.slots[p].id != 0 && b.slots[q].id != 0
    requires |b.log| <= i && DispatchedAt(Dispatch(b, scripts).log, i, b.slots[p].id)
    requires |b.log| <= j && DispatchedAt(Dispatch(b, scripts).log, j, b.slots[q].id)
    ensures j < i
    decreases |b.slots|
  {
    hide OnceEach, NeverAfterClose, AllConsidered;
    var cur := b.slots[|b.slots| - 1];
    var log := Dispatch(b, scripts).log;
    if cur.id == 0 {
      NextPending(b);
      BatchOrder(Next(b), scripts, p, q, i, j);
    } else {
      var script := First(scripts);
      var b2 := Handle(b, script);
      assert b.slots[p].id != cur.id;
      HandleIsHandled(b, script);
      NextPending(b2);
      BatchSafety(Next(b2), Rest(scripts));
      assert log[|b.log|] == b2.log[|b.log|];
      hide Handle, Sound, Pending;
      if j != |b.log| {
        DispatchedLater(b, b2, log, p, i);
        DispatchedLater(b, b2, log, q, j);
        BatchOrder(Next(b2), Rest(scripts), p, q, i, j);
      }
    }
  }
}
