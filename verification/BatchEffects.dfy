/** What the handlers called during a batch bring about. */
module BatchEffects {
  import opened Batches

  predicate Errors(events: bv16) { events & ERROR_EVENT != 0 }

  /** Readable events and errors go to the read handler, also when the channel is writable too;
      the write handler gets what is writable only. */
  lemma KindExactly(events: bv16)
    ensures KindOf(events) == Read <==> Reads(events) || Errors(events)
    ensures KindOf(events) == Write <==> Writes(events) && !Reads(events) && !Errors(events)
    ensures KindOf(events) == Unknown <==> !Writes(events) && !Reads(events) && !Errors(events)
  {
    assert events & (ERROR_EVENT | READ_EVENT) == (events & ERROR_EVENT) | (events & READ_EVENT);
  }

  ghost predicate OpenedSince(log: seq<Event>, from: nat, id: nat) {
    exists i :: from <= i < |log| && log[i] == Opened(id)
  }

  /** r comes from b by closing and opening: a channel is open at the end if and only if it was open
      or has been opened and has not been closed; ids are never used again. */
  ghost predicate Follows(b: Batch, r: Batch) {
    && b.log <= r.log && b.lastId <= r.lastId
    && (forall i :: |b.log| <= i < |r.log| && r.log[i].Opened? ==> b.lastId < r.log[i].id <= r.lastId)
    && (forall i :: |b.log| <= i < |r.log| && r.log[i].Closed? ==> r.log[i].id <= r.lastId)
    && (forall id :: id in r.live <==>
          (id in b.live || OpenedSince(r.log, |b.log|, id)) && !ClosedSince(r.log, |b.log|, id))
  }

  lemma FollowsSelf(b: Batch)
    ensures Follows(b, b)
  {
  }

  lemma FollowsMore(a: Batch, b: Batch, c: Batch)
    requires Follows(a, b) && Follows(b, c)
    ensures Follows(a, c)
  {
    assert forall i :: 0 <= i < |b.log| ==> c.log[i] == b.log[i];
    forall id
      ensures OpenedSince(c.log, |a.log|, id) <==> OpenedSince(b.log, |a.log|, id) || OpenedSince(c.log, |b.log|, id)
      ensures ClosedSince(c.log, |a.log|, id) <==> ClosedSince(b.log, |a.log|, id) || ClosedSince(c.log, |b.log|, id)
    {
      SinceSplits(b.log, c.log, |a.log|, id);
    }
  }

  lemma SinceSplits(b: seq<Event>, c: seq<Event>, from: nat, id: nat)
    requires from <= |b| && b <= c
    ensures OpenedSince(c, from, id) <==> OpenedSince(b, from, id) || OpenedSince(c, |b|, id)
    ensures ClosedSince(c, from, id) <==> ClosedSince(b, from, id) || ClosedSince(c, |b|, id)
  {
    assert forall i :: 0 <= i < |b| ==> c[i] == b[i];
  }

  lemma ActFollows(b: Batch, a: Action)
    requires Sound(b)
    ensures Follows(b, Act(b, a)) && Sound(Act(b, a))
    ensures a.Close? ==> a.id !in Act(b, a).live
  {
    ActKeepsSound(b, a);
    var r := Act(b, a);
    if r.log != b.log {
      assert r.log == b.log + [r.log[|b.log|]];
      assert forall id :: ClosedSince(r.log, |b.log|, id) <==> r.log[|b.log|] == Closed(id);
      assert forall id :: OpenedSince(r.log, |b.log|, id) <==> r.log[|b.log|] == Opened(id);
    }
  }

  lemma GoneStaysGone(b: Batch, r: Batch, id: nat)
    requires Follows(b, r) && id <= b.lastId && id !in b.live
    ensures id !in r.live
  {
  }

  lemma {:induction false} ActsFollow(b: Batch, actions: seq<Action>)
    requires Sound(b)
    ensures Follows(b, Acts(b, actions)) && Sound(Acts(b, actions))
    ensures forall id: nat :: Close(id) in actions && id <= b.lastId ==> id !in Acts(b, actions).live
    decreases |actions|
  {
    hide Follows, Sound, Act;
    if actions == [] {
      FollowsSelf(b);
    } else {
      var c := Act(b, actions[0]);
      ActFollows(b, actions[0]);
      ActsFollow(c, actions[1..]);
      FollowsMore(b, c, Acts(b, actions));
      FollowsIds(b, c);
      forall id: nat | Close(id) in actions && id <= b.lastId ensures id !in Acts(b, actions).live {
        if actions[0] == Close(id) {
          GoneStaysGone(c, Acts(b, actions), id);
        } else {
          assert Close(id) in actions[1..];
        }
      }
    }
  }

  lemma FollowsIds(b: Batch, r: Batch)
    requires Follows(b, r)
    ensures b.lastId <= r.lastId && b.log <= r.log
  {
  }

  lemma HandleFollows(b: Batch, script: seq<Action>)
    requires Sound(b) && b.slots != []
    ensures Follows(b, Handle(b, script)) && Sound(Handle(b, script))
    ensures forall id: nat :: Close(id) in script && id <= b.lastId ==> id !in Handle(b, script).live
  {
    var cur := b.slots[|b.slots| - 1];
    var b1 := b.(log := b.log + [Dispatched(cur.id, KindOf(cur.events))]);
    assert forall id :: !ClosedSince(b1.log, |b.log|, id) && !OpenedSince(b1.log, |b.log|, id);
    ActsFollow(b1, script);
    FollowsMore(b, b1, Handle(b, script));
  }

  lemma NextFollows(b: Batch, r: Batch)
    requires b.slots != []
    ensures Follows(Next(b), r) <==> Follows(b, r)
  {
  }

  /** Over a whole batch. */
  lemma {:induction false} DispatchFollows(b: Batch, scripts: seq<seq<Action>>)
    requires Sound(b)
    ensures Follows(b, Dispatch(b, scripts))
    decreases |b.slots|
  {
    hide Follows, Handle, Sound;
    if b.slots == [] {
      FollowsSelf(b);
    } else if b.slots[|b.slots| - 1].id == 0 {
      NextPending(b);
      DispatchFollows(Next(b), scripts);
      NextFollows(b, Dispatch(b, scripts));
    } else {
      var b2 := Handle(b, First(scripts));
      HandleFollows(b, First(scripts));
      NextPending(b2);
      DispatchFollows(Next(b2), Rest(scripts));
      NextFollows(b2, Dispatch(b, scripts));
      FollowsMore(b, b2, Dispatch(b, scripts));
    }
  }

  // ----- each handler called does its script -----

  /** How many handlers have been called since the position from. */
  function Calls(log: seq<Event>, from: nat): nat
    decreases |log|
  {
    if |log| <= from then 0
    else Calls(log[..|log| - 1], from) + if log[|log| - 1].Dispatched? then 1 else 0
  }

  lemma {:induction false} CallsSplit(log: seq<Event>, from: nat, mid: nat)
    requires from <= mid <= |log|
    ensures Calls(log, from) == Calls(log[..mid], from) + Calls(log, mid)
    decreases |log|
  {
    if |log| == mid {
      assert log[..mid] == log;
    } else {
      CallsSplit(log[..|log| - 1], from, mid);
      assert log[..|log| - 1][..mid] == log[..mid];
    }
  }

  lemma {:induction false} CallsNone(log: seq<Event>, from: nat)
    requires forall i :: from <= i < |log| ==> !log[i].Dispatched?
    ensures Calls(log, from) == 0
    decreases |log|
  {
    if |log| > from {
      CallsNone(log[..|log| - 1], from);
    }
  }

  lemma HandleCallsOne(b: Batch, script: seq<Action>)
    requires b.slots != []
    ensures b.log <= Handle(b, script).log && Calls(Handle(b, script).log, |b.log|) == 1
  {
    var cur := b.slots[|b.slots| - 1];
    var b1 := b.(log := b.log + [Dispatched(cur.id, KindOf(cur.events))]);
    var r := Handle(b, script);
    ActsKeepEvents(b1, script);
    CallsSplit(r.log, |b.log|, |b1.log|);
    CallsNone(r.log, |b1.log|);
    assert r.log[..|b1.log|] == b1.log && b1.log[..|b.log|] == b.log;
    CallsNone(b.log, |b.log|);
  }

  /** Whatever the n-th handler called in a batch closes is closed when loop_once returns. */
  lemma {:induction false} HandlersClose(b: Batch, scripts: seq<seq<Action>>, n: nat, id: nat)
    requires Sound(b) && n < |scripts| && Close(id) in scripts[n] && id <= b.lastId
    requires n < Calls(Dispatch(b, scripts).log, |b.log|)
    ensures id !in Dispatch(b, scripts).live
    decreases |b.slots|
  {
    hide Follows, Handle, Sound;
    var r := Dispatch(b, scripts);
    CallsNone(b.log, |b.log|);
    assert b.slots != [];
    if b.slots[|b.slots| - 1].id == 0 {
      NextPending(b);
      HandlersClose(Next(b), scripts, n, id);
    } else {
      var b2 := Handle(b, First(scripts));
      HandleFollows(b, First(scripts));
      HandleCallsOne(b, First(scripts));
      NextPending(b2);
      DispatchFollows(Next(b2), Rest(scripts));
      NextFollows(b2, r);
      FollowsIds(b, b2);
      FollowsIds(b2, r);
      if n == 0 {
        GoneStaysGone(b2, r, id);
      } else {
        CallsSplit(r.log, |b.log|, |b2.log|);
        assert r.log[..|b2.log|] == b2.log;
        HandlersClose(Next(b2), Rest(scripts), n - 1, id);
      }
    }
  }

  // ----- and opens -----

  function Opens(actions: seq<Action>): nat {
    if actions == [] then 0
    else (if actions[0].Open? && actions[0].fd > 0 then 1 else 0) + Opens(actions[1..])
  }

  function OpensIn(scripts: seq<seq<Action>>, n: nat): nat
    decreases n
  {
    if n == 0 || scripts == [] then 0 else Opens(scripts[0]) + OpensIn(scripts[1..], n - 1)
  }

  lemma {:induction false} ActsOpen(b: Batch, actions: seq<Action>)
    ensures Acts(b, actions).lastId == b.lastId + Opens(actions)
    decreases |actions|
  {
    if actions != [] {
      ActsOpen(Act(b, actions[0]), actions[1..]);
    }
  }

  /** As many channels have been opened as the handlers called have opened. */
  lemma {:induction false} HandlersOpen(b: Batch, scripts: seq<seq<Action>>)
    ensures var r := Dispatch(b, scripts);
            b.log <= r.log && r.lastId == b.lastId + OpensIn(scripts, Calls(r.log, |b.log|))
    decreases |b.slots|
  {
    hide Acts, KindOf;
    var r := Dispatch(b, scripts);
    if b.slots == [] {
      CallsNone(b.log, |b.log|);
    } else if b.slots[|b.slots| - 1].id == 0 {
      HandlersOpen(Next(b), scripts);
    } else {
      var b2 := Handle(b, First(scripts));
      var cur := b.slots[|b.slots| - 1];
      ActsOpen(b.(log := b.log + [Dispatched(cur.id, KindOf(cur.events))]), First(scripts));
      HandleCallsOne(b, First(scripts));
      HandlersOpen(Next(b2), Rest(scripts));
      CallsSplit(r.log, |b.log|, |b2.log|);
      assert r.log[..|b2.log|] == b2.log;
    }
  }
}
