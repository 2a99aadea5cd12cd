/** PollerEpoll and Channel: the objects behind a Batch. */
module Pollers {
  import opened Batches

  const MAX_EVENT: nat := 2000

  /** An epoll_event: the channel pointer and the reported events. */
  datatype Slot = Slot(ch: Channel?, events: bv16)

  /** What epoll_wait returns: the ready channels, or nothing because of EINTR. */
  datatype Wait = Interrupted | Reported(ready: seq<Slot>)

  class Channel {
    const id: nat
    const poller: PollerEpoll
    var fd: int
    var events: bv16

    constructor (poller: PollerEpoll, fd: int, events: bv16)
      requires poller.Valid() && fd > 0
      modifies poller
      ensures this.poller == poller && this.fd == fd && this.events == events
      ensures poller.Valid()
      ensures poller.live == old(poller.live) + {this} && poller.known == old(poller.known) + {this}
      ensures poller.View() == Act(old(poller.View()), Action.Open(fd, events))
      ensures poller.lastActive == old(poller.lastActive)
    {
      this.poller, this.fd, this.events := poller, fd, events;
      this.id := poller.nextId + 1;
      new;
      poller.AddChannel(this);
    }

    predicate ReadEnable()
      reads this
    {
      Reads(events)
    }

    predicate WriteEnable()
      reads this
    {
      Writes(events)
    }

    method EnableRead(enable: bool)
      modifies this`events
      ensures events == SetFlag(old(events), READ_EVENT, enable)
      ensures ReadEnable() == enable && WriteEnable() == old(WriteEnable())
    {
      ReadFlag(events, enable);
      hide SetFlag, Reads, Writes;
      events := SetFlag(events, READ_EVENT, enable);
    }

    method EnableWrite(enable: bool)
      modifies this`events
      ensures events == SetFlag(old(events), WRITE_EVENT, enable)
      ensures WriteEnable() == enable && ReadEnable() == old(ReadEnable())
    {
      WriteFlag(events, enable);
      hide SetFlag, Reads, Writes;
      events := SetFlag(events, WRITE_EVENT, enable);
    }

    method EnableReadWrite(readEnable: bool, writeEnable: bool)
      modifies this`events
      ensures events == SetFlag(SetFlag(old(events), READ_EVENT, readEnable), WRITE_EVENT, writeEnable)
      ensures ReadEnable() == readEnable && WriteEnable() == writeEnable
    {
      ReadFlag(events, readEnable);
      WriteFlag(SetFlag(events, READ_EVENT, readEnable), writeEnable);
      hide SetFlag, Reads, Writes;
      events := SetFlag(events, READ_EVENT, readEnable);
      events := SetFlag(events, WRITE_EVENT, writeEnable);
    }

    /** close(), up to the read handler it calls at its end. */
    method Close()
      requires poller.Valid() && this in poller.known
      modifies this`fd, poller`live, poller`log, poller.active
      ensures poller.Valid() && this !in poller.live && fd == if old(fd) > 0 then -1 else old(fd)
      ensures poller.live == old(poller.live) - {this}
      ensures poller.View() == Act(old(poller.View()), Action.Close(id))
    {
      if fd > 0 {
        poller.RemoveChannel(this);
        fd := -1;
      }
    }
  }

  ghost function IdOf(s: Slot): nat {
    if s.ch == null then 0 else s.ch.id
  }

  class PollerEpoll {
    var live: set<Channel>
    const active: array<Slot>
    var lastActive: int
    var nextId: nat
    ghost var known: set<Channel>
    ghost var log: seq<Event>

    /** Sound up to the fd of c, which close() resets only after removing it. */
    ghost predicate ValidBut(c: Channel?)
      reads this, active, known
    {
      && active.Length == MAX_EVENT
      && -2 <= lastActive < MAX_EVENT
      && live <= known
      && (forall d :: d in known ==> d.poller == this && 1 <= d.id <= nextId)
      && (forall d :: d in known && d != c ==> (d.fd > 0 <==> d in live))
      && (forall d, e :: d in known && e in known && d.id == e.id ==> d == e)
      && (forall i :: 0 <= i <= lastActive && active[i].ch != null ==> active[i].ch in live)
      && (forall i, j :: 0 <= i < j <= lastActive && active[i].ch != null ==> active[i].ch != active[j].ch)
    }

    ghost predicate Valid()
      reads this, active, known
    {
      ValidBut(null)
    }

    ghost function LiveIds(): set<nat>
      reads this
    {
      set c | c in live :: c.id
    }

    /** The poller with the first n slots of the batch. */
    ghost function ViewUpTo(n: int): Batch
      requires n <= active.Length
      reads this, active
    {
      Batch(LiveIds(), nextId,
            if n <= 0 then []
            else seq(n, i requires 0 <= i < active.Length reads this, active => Ready(IdOf(active[i]), active[i].events)),
            log)
    }

    ghost function View(): Batch
      requires lastActive < active.Length
      reads this, active
    {
      ViewUpTo(lastActive + 1)
    }

    constructor ()
      ensures Valid() && live == {} && known == {} && lastActive == -1 && fresh(active)
    {
      live, known, lastActive, nextId, log := {}, {}, -1, 0, [];
      active := new Slot[MAX_EVENT](_ => Slot(null, 0));
    }

    method AddChannel(ch: Channel)
      requires Valid() && ch !in known && ch.poller == this && ch.fd > 0 && ch.id == nextId + 1
      modifies this
      ensures Valid() && live == old(live) + {ch} && known == old(known) + {ch}
      ensures lastActive == old(lastActive)
      ensures View() == Act(old(View()), Action.Open(ch.fd, ch.events))
    {
      live := live + {ch};
      known := known + {ch};
      nextId := nextId + 1;
      log := log + [Opened(ch.id)];
      assert LiveIds() == old(LiveIds()) + {ch.id};
    }

    method RemoveChannel(ch: Channel)
      requires Valid() && ch in live
      modifies this`live, this`log, active
      ensures ValidBut(ch) && live == old(live) - {ch}
      ensures View() == Act(old(View()), Action.Close(ch.id))
    {
      live := live - {ch};
      log := log + [Closed(ch.id)];
      var i := lastActive;
      while i >= 0
        invariant -2 <= i <= lastActive
        invariant active[..] == old(active[..])
        invariant forall k :: 0 <= k && i < k <= lastActive ==> active[k].ch != ch
      {
        if ch == active[i].ch {
          active[i] := Slot(null, active[i].events);
          break;
        }
        i := i - 1;
      }
      assert LiveIds() == old(LiveIds()) - {ch.id};
      assert View().slots == Nulled(old(View()).slots, ch.id);
    }

    /** A callback closing and opening channels. */
    method RunActions(actions: seq<Action>)
      requires Valid()
      modifies this, active, known
      ensures Valid() && lastActive == old(lastActive)
      ensures old(known) <= known && fresh(known - old(known))
      ensures View() == Acts(old(View()), actions)
    {
      var i := 0;
      while i < |actions|
        invariant 0 <= i <= |actions| && Valid() && lastActive == old(lastActive)
        invariant old(known) <= known && fresh(known - old(known))
        invariant Acts(View(), actions[i..]) == Acts(old(View()), actions)
      {
        assert actions[i..][0] == actions[i] && actions[i..][1..] == actions[i + 1..];
        RunAction(actions[i]);
        i := i + 1;
      }
    }

    method RunAction(action: Action)
      requires Valid()
      modifies this, active, known
      ensures Valid() && lastActive == old(lastActive)
      ensures old(known) <= known && fresh(known - old(known))
      ensures View() == Act(old(View()), action)
    {
      match action {
        case Close(id) =>
          if c :| c in live && c.id == id {
            c.Close();
          }
        case Open(fd, events) =>
          if fd > 0 {
            var _ := new Channel(this, fd, events);
          }
      }
    }

    /** What the kernel may report: distinct registered channels, as many as fit. */
    ghost predicate Reportable(result: Wait)
      reads this
    {
      result.Reported? ==>
        && |result.ready| <= MAX_EVENT
        && (forall s :: s in result.ready ==> s.ch != null && s.ch in live)
        && (forall i, j :: 0 <= i < j < |result.ready| ==> result.ready[i].ch != result.ready[j].ch)
    }

    /** The batch that a return of epoll_wait starts. */
    ghost function Received(result: Wait): Batch
      reads this
    {
      Batch(LiveIds(), nextId,
            if result.Interrupted? then []
            else seq(|result.ready|, i requires 0 <= i < |result.ready| =>
                     Ready(IdOf(result.ready[i]), result.ready[i].events)),
            log)
    }

    /** The body of the dispatch loop at index m_lastActive. */
    method DispatchSlot(script: seq<Action>) returns (called: bool)
      requires Valid() && lastActive >= 0
      modifies this, active, known
      ensures Valid() && lastActive == old(lastActive) - 1
      ensures old(known) <= known && fresh(known - old(known))
      ensures var b := old(View());
              && called == (b.slots[|b.slots| - 1].id != 0)
              && View() == Next(if called then Handle(b, script) else b)
    {
      hide Acts, KindOf, Act;
      ghost var b := View();
      var slot := active[lastActive];
      assert b.slots[|b.slots| - 1] == Ready(IdOf(slot), slot.events);
      called := slot.ch != null;
      if called {
        log := log + [Dispatched(slot.ch.id, KindOf(slot.events))];
        assert View() == b.(log := log);
        RunActions(script);
      }
      ghost var done := View();
      lastActive := lastActive - 1;
      assert View().slots == done.slots[..|done.slots| - 1];
    }

    /** Stores what epoll_wait returned. */
    method Receive(result: Wait)
      requires Valid() && Reportable(result)
      modifies this`lastActive, active
      ensures lastActive == if result.Interrupted? then -2 else |result.ready| - 1
      ensures Valid() && View() == old(Received(result))
    {
      match result {
        case Interrupted =>
          lastActive := -1;
        case Reported(ready) =>
          lastActive := |ready|;
          forall i | 0 <= i < |ready| {
            active[i] := ready[i];
          }
      }
      lastActive := lastActive - 1;
      assert View().slots == old(Received(result)).slots;
    }

    /** loop_once: result is what epoll_wait returns, and the i-th handler called does
        scripts[i]. */
    method LoopOnce(result: Wait, scripts: seq<seq<Action>>)
      requires Valid() && Reportable(result)
      modifies this, active, known
      ensures Valid() && lastActive < 0
      ensures Sound(old(Received(result))) && Safe(old(Received(result)), log)
      ensures View() == Dispatch(old(Received(result)), scripts)
    {
      ghost var start := Received(result);
      StartsSound(result);
      BatchSafety(start, scripts);
      hide Sound, OnlyPending, OnceEach, NeverAfterClose, AllConsidered;
      Receive(result);
      var next := 0;
      while lastActive >= 0
        invariant Valid() && -2 <= lastActive && 0 <= next <= |scripts|
        invariant old(known) <= known && fresh(known - old(known))
        invariant Dispatch(View(), scripts[next..]) == Dispatch(start, scripts)
        decreases lastActive
      {
        var called := DispatchSlot(if next < |scripts| then scripts[next] else []);
        if next < |scripts| {
          assert scripts[next..][0] == scripts[next] && scripts[next..][1..] == scripts[next + 1..];
        }
        if called && next < |scripts| {
          next := next + 1;
        }
      }
    }

    lemma StartsSound(result: Wait)
      requires Valid() && Reportable(result)
      ensures Sound(Received(result))
    {
    }

    /** The destructor's loop. The read handler of the i-th channel closed does scripts[i], which
        may close and open channels; handlers after the last script do nothing. */
    method CloseAll(scripts: seq<seq<Action>>)
      requires Valid()
      modifies this, active, known
      ensures Valid() && live == {} && old(known) <= known && fresh(known - old(known))
      ensures forall c :: c in known ==> c.fd <= 0
    {
      var next := 0;
      while live != {}
        invariant Valid() && 0 <= next <= |scripts|
        invariant old(known) <= known && fresh(known - old(known))
        decreases |scripts| - next, live
      {
        var c :| c in live;
        c.Close();
        if next < |scripts| {
          RunActions(scripts[next]);
          next := next + 1;
        }
      }
    }
  }
}
