/** SafeQueue as the object one thread sees while it holds the mutex, and its agreement with
    the steps of QueueProtocol. */
module SafeQueues {
  import opened QueueProtocol

  datatype Popped = Empty | Item(v: Task)

  /** The test at the head of push. */
  predicate Accepts(items: seq<Task>, capacity: nat, exiting: bool) {
    !exiting && (capacity == 0 || |items| < capacity)
  }

  class SafeQueue {
    var items: seq<Task>
    const capacity: nat
    var exiting: bool

    constructor (capacity: nat)
      ensures items == [] && this.capacity == capacity && !exiting
    {
      items, this.capacity, exiting := [], capacity, false;
    }

    method Push(v: Task) returns (ok: bool)
      modifies this`items
      ensures ok == Accepts(old(items), capacity, exiting)
      ensures items == if ok then old(items) + [v] else old(items)
    {
      if exiting || (capacity != 0 && |items| >= capacity) {
        return false;
      }
      items := items + [v];
      return true;
    }

    /** pop_wait without waiting. */
    method PopNow() returns (r: Popped)
      modifies this`items
      ensures old(items) == [] ==> r == Empty && items == []
      ensures old(items) != [] ==> r == Item(old(items)[0]) && items == old(items)[1..]
    {
      if items == [] {
        return Empty;
      }
      r := Item(items[0]);
      items := items[1..];
    }

    method Exit()
      modifies this`exiting
      ensures exiting
    {
      exiting := true;
    }
  }

  lemma RunOne(s: State, e: Step, rest: seq<Step>)
    ensures Run(s, [e] + rest) == Run(if Enabled(s, e) then Next(s, e) else s, rest)
  {
  }

  /** The threads after push: t is done, and if it put an item in, the waiter w is notified. */
  function Told(pcs: seq<Pc>, t: nat, w: nat, ok: bool): seq<Pc>
    requires t < |pcs| && (SomeWaiting(pcs) ==> w < |pcs|)
  {
    (if ok && SomeWaiting(pcs) then pcs[w := Notified] else pcs)[t := Idle]
  }

  /** The end of push, once the item is in. */
  lemma PushTells(s: State, t: nat, w: nat)
    requires s.workers <= t < |s.pcs| && s.pcs[t] == PushNotify
    requires SomeWaiting(s.pcs) ==> w < |s.pcs| && s.pcs[w].Waiting?
    ensures var r := Run(s, [Inside(t, w)] + []);
            r.owner == -1 && r.items == s.items && r.pcs == Told(s.pcs, t, w, true)
  {
    hide PopStep, ExitStep;
    RunOne(s, Inside(t, w), []);
  }

  /** The test and the commit of push. */
  lemma PushCommits(s: State, t: nat, w: nat, v: Task)
    requires s.workers <= t < |s.pcs| && s.pcs[t] == PushTest(v)
    ensures Enabled(s, Inside(t, w))
    ensures var n := Next(s, Inside(t, w));
            if !Accepts(s.items, s.capacity, s.exiting) then
              n.pcs == s.pcs[t := Idle] && n.items == s.items && n.owner == -1 && !Enabled(n, Inside(t, w))
            else
              && Enabled(n, Inside(t, w))
              && var m := Next(n, Inside(t, w));
                 m.pcs == s.pcs[t := PushNotify] && m.items == s.items + [v] && m.workers == s.workers
  {
    hide PopStep, ExitStep, SomeWaiting;
  }

  /** push from its test to its end, w being the waiter notified if there is one. */
  lemma PushInside(s: State, t: nat, w: nat, v: Task)
    requires s.workers <= t < |s.pcs| && s.pcs[t] == PushTest(v)
    requires SomeWaiting(s.pcs) ==> w < |s.pcs| && s.pcs[w].Waiting?
    ensures var me := Inside(t, w);
            var ok := Accepts(s.items, s.capacity, s.exiting);
            var r := Run(s, [me] + ([me] + ([me] + [])));
            && r.owner == -1 && r.items == (if ok then s.items + [v] else s.items)
            && r.pcs == Told(s.pcs, t, w, ok)
  {
    hide Run, Next, Enabled, Accepts;
    var me := Inside(t, w);
    PushCommits(s, t, w, v);
    var s2 := Next(s, me);
    RunOne(s, me, [me] + ([me] + []));
    RunOne(s2, me, [me] + []);
    if Accepts(s.items, s.capacity, s.exiting) {
      WaitingBack(s.pcs, t, PushNotify, w);
      PushTells(Next(s2, me), t, w);
    } else {
      RunOne(s2, me, []);
      Halted(s2);
    }
  }

  lemma Halted(s: State)
    ensures Run(s, []) == s
  {
  }

  lemma WaitingBack(pcs: seq<Pc>, t: nat, pc: Pc, w: nat)
    requires t < |pcs| && !pcs[t].Waiting? && !pc.Waiting?
    requires SomeWaiting(pcs) ==> w < |pcs| && pcs[w].Waiting?
    ensures SomeWaiting(pcs[t := pc]) <==> SomeWaiting(pcs)
    ensures SomeWaiting(pcs[t := pc]) ==> w < |pcs| && pcs[t := pc][w].Waiting?
    ensures forall ok :: Told(pcs[t := pc], t, w, ok) == Told(pcs, t, w, ok)
  {
    if SomeWaiting(pcs) {
      assert pcs[t := pc][w].Waiting?;
    }
  }

  /** A thread with no rival for the mutex runs push to its end: what the class does at once. */
  lemma PushAlone(s: State, t: nat, w: nat, v: Task)
    requires s.workers <= t < |s.pcs| && s.pcs[t] == WantPush(v) && s.owner == -1
    requires SomeWaiting(s.pcs) ==> w < |s.pcs| && s.pcs[w].Waiting?
    ensures var me := Inside(t, w);
            var ok := Accepts(s.items, s.capacity, s.exiting);
            var r := Run(s, [Lock(t)] + ([me] + ([me] + ([me] + []))));
            && r.owner == -1 && r.items == (if ok then s.items + [v] else s.items)
            && r.pcs == Told(s.pcs, t, w, ok)
  {
    var me := Inside(t, w);
    RunOne(s, Lock(t), [me] + ([me] + ([me] + [])));
    var s1 := Next(s, Lock(t));
    hide Run, Critical;
    if SomeWaiting(s1.pcs) {
      assert SomeWaiting(s.pcs);
    }
    PushInside(s1, t, w, v);
  }

  /** So does pop_wait without waiting: it takes the front if there is one. */
  lemma PopAlone(s: State, t: nat)
    requires s.workers <= t < |s.pcs| && s.pcs[t] == WantPopNow && s.owner == -1
    ensures var r := Run(s, [Lock(t)] + ([Inside(t, 0)] + []));
            && r.owner == -1 && t < |r.pcs| && r.pcs[t].Idle?
            && (s.items == [] ==> r.items == [] && r.dequeued == s.dequeued)
            && (s.items != [] ==> r.items == s.items[1..] && r.dequeued == s.dequeued + [s.items[0]])
  {
    hide PushStep, ExitStep, Run;
    RunOne(s, Lock(t), [Inside(t, 0)] + []);
    var s1 := Next(s, Lock(t));
    RunOne(s1, Inside(t, 0), []);
    Halted(Next(s1, Inside(t, 0)));
  }

  /** And exit, whose store comes before the lock: it leaves nobody waiting and no item lost. */
  lemma ExitAlone(s: State, t: nat)
    requires s.workers <= t < |s.pcs| && s.pcs[t] == Idle && s.owner == -1
    ensures var r := Run(s, [StartExit(t)] + ([Lock(t)] + ([Inside(t, 0)] + [])));
            && r.owner == -1 && t < |r.pcs| && r.pcs[t].Idle? && r.items == s.items
            && r.exiting && r.exitDone && !SomeWaiting(r.pcs)
  {
    hide PushStep, PopStep, Run;
    RunOne(s, StartExit(t), [Lock(t)] + ([Inside(t, 0)] + []));
    var s1 := Next(s, StartExit(t));
    RunOne(s1, Lock(t), [Inside(t, 0)] + []);
    var s2 := Next(s1, Lock(t));
    RunOne(s2, Inside(t, 0), []);
    Halted(Next(s2, Inside(t, 0)));
  }
}
