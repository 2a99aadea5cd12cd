/** What becomes of the tasks: every push is accepted or refused, every task dequeued by a worker
    is run by it, and none is left when nothing moves. */
module QueueTasks {
  import opened QueueProtocol
  import opened QueueRuns

  // ----- who runs what -----

  /** The tasks of t in a log of jobs, in order. */
  function Of(log: seq<Job>, t: nat): seq<Task>
    decreases |log|
  {
    if log == [] then []
    else
      var last := log[|log| - 1];
      Of(log[..|log| - 1], t) + if last.t == t then [last.v] else []
  }

  lemma OfMore(log: seq<Job>, j: Job, t: nat)
    ensures Of(log + [j], t) == Of(log, t) + if j.t == t then [j.v] else []
  {
    assert (log + [j])[..|log|] == log;
  }

  function InHand(pc: Pc): seq<Task> { if pc.Running? then [pc.v] else [] }

  /** took is what was dequeued, and each worker has run exactly what it took, in order, but for the
      task it is in. */
  ghost predicate Works(s: State) {
    && |s.took| == |s.dequeued|
    && (forall i :: 0 <= i < |s.took| ==> s.took[i].v == s.dequeued[i])
    && (forall t :: 0 <= t < s.workers && t < |s.pcs| ==> Of(s.took, t) == Of(s.ran, t) + InHand(s.pcs[t]))
    && (forall i :: 0 <= i < |s.ran| ==> s.ran[i].t < s.workers)
  }

  /** A step inside the mutex takes the front of the queue or nothing. */
  lemma TakesOwn(s: State, t: nat, w: nat)
    requires Enabled(s, Inside(t, w)) && (t < s.workers ==> WorkerPc(s.pcs[t]))
    ensures var n := Critical(s, t, w);
            && n.workers == s.workers && |n.pcs| == |s.pcs| && n.ran == s.ran && InHand(s.pcs[t]) == []
            && if s.pcs[t].PopTake? && s.items != [] then
                 && n.took == s.took + [Job(t, s.items[0])] && n.dequeued == s.dequeued + [s.items[0]]
                 && n.items == s.items[1..]
                 && (t < s.workers ==> n.pcs[t] == Running(s.items[0]))
                 && n.latePops == if s.exiting && t < |s.latePops| then s.latePops[t := s.latePops[t] + 1] else s.latePops
               else
                 n.took == s.took && n.dequeued == s.dequeued && n.latePops == s.latePops && InHand(n.pcs[t]) == []
  {
    if Pushing(s.pcs[t]) {
      hide PopStep, ExitStep;
    } else if s.pcs[t].ExitAll? {
      hide PushStep, PopStep;
    } else {
      hide PushStep, ExitStep;
    }
  }

  /** And it puts a task into the hands of no other worker. */
  lemma TakesFront(s: State, t: nat, w: nat)
    requires Enabled(s, Inside(t, w)) && Mutex(s) && Roles(s)
    ensures var n := Critical(s, t, w);
            && n.workers == s.workers && |n.pcs| == |s.pcs| && n.ran == s.ran && InHand(s.pcs[t]) == []
            && (forall u :: 0 <= u < |s.pcs| && u != t ==> InHand(n.pcs[u]) == InHand(s.pcs[u]))
            && if s.pcs[t].PopTake? && s.items != [] then
                 && n.took == s.took + [Job(t, s.items[0])] && n.dequeued == s.dequeued + [s.items[0]]
                 && (t < s.workers ==> n.pcs[t] == Running(s.items[0]))
               else
                 n.took == s.took && n.dequeued == s.dequeued && InHand(n.pcs[t]) == []
  {
    hide Critical;
    CriticalFrame(s, t, w);
    TakesOwn(s, t, w);
  }

  lemma WorksInside(s: State, t: nat, w: nat)
    requires Works(s) && Mutex(s) && Roles(s) && Enabled(s, Inside(t, w))
    ensures Works(Critical(s, t, w))
  {
    hide Of, Critical, Mutex, Roles;
    TakesFront(s, t, w);
    var n := Critical(s, t, w);
    if s.pcs[t].PopTake? && s.items != [] {
      var j := Job(t, s.items[0]);
      forall u | 0 <= u < s.workers && u < |s.pcs| ensures Of(n.took, u) == Of(n.ran, u) + InHand(n.pcs[u]) {
        OfMore(s.took, j, u);
        assert Of(s.ran, u) + [] == Of(s.ran, u);
        assert Of(s.took, u) + [] == Of(s.took, u);
      }
    }
  }

  lemma WorksStep(s: State, e: Step)
    requires Works(s) && Mutex(s) && Roles(s) && Enabled(s, e)
    ensures Works(Next(s, e))
  {
    hide Of, Critical, Mutex;
    if e.Inside? {
      WorksInside(s, e.t, e.w);
    } else if e.FinishTask? {
      var n := Next(s, e);
      forall u | 0 <= u < s.workers && u < |s.pcs| ensures Of(n.took, u) == Of(n.ran, u) + InHand(n.pcs[u]) {
        OfMore(s.ran, Job(e.t, s.pcs[e.t].v), u);
        assert Of(s.ran, u) + [] == Of(s.ran, u);
        assert Of(n.ran, u) + [] == Of(n.ran, u);
      }
    }
  }

  // ----- the capacity -----

  /** A bounded queue never holds more than its capacity, and only a bounded or exiting one
      refuses. */
  ghost predicate Bounded(s: State) {
    && (s.capacity != 0 ==>
          && |s.items| <= s.capacity
          && forall t :: 0 <= t < |s.pcs| && s.pcs[t].PushCommit? ==> |s.items| < s.capacity)
    && (s.capacity == 0 && !s.exiting ==> s.refused == [])
  }

  lemma BoundedInside(s: State, t: nat, w: nat)
    requires Bounded(s) && Mutex(s) && Enabled(s, Inside(t, w))
    ensures Bounded(Critical(s, t, w))
  {
    CriticalFrame(s, t, w);
    MutexInside(s, t, w);
    if Pushing(s.pcs[t]) {
      hide PopStep, ExitStep;
    } else if s.pcs[t].ExitAll? {
      hide PushStep, PopStep;
    } else {
      hide PushStep, ExitStep;
    }
  }

  /** push refuses if and only if the pool is exiting or the queue is exactly full. */
  lemma RefusedExactly(s: State, t: nat, w: nat)
    requires Bounded(s) && Enabled(s, Inside(t, w)) && s.pcs[t].PushTest?
    ensures var n, v := Critical(s, t, w), s.pcs[t].v;
            if s.exiting || (s.capacity != 0 && |s.items| == s.capacity)
            then n.refused == s.refused + [v] && n.pcs[t] == Outside(s, t)
            else n.refused == s.refused && n.pcs[t] == PushCommit(v)
  {
    hide PopStep, ExitStep;
  }

  lemma BoundedStep(s: State, e: Step)
    requires Bounded(s) && Mutex(s) && Enabled(s, e)
    ensures Bounded(Next(s, e))
  {
    if e.Inside? {
      BoundedInside(s, e.t, e.w);
    }
    hide Critical, Mutex;
  }

  // ----- every push -----

  function Held(pc: Pc, v: Task): nat {
    if (pc.WantPush? || pc.PushTest? || pc.PushCommit?) && pc.v == v then 1 else 0
  }

  /** How many pushes of v are neither accepted nor refused yet. */
  function Pending(pcs: seq<Pc>, v: Task): nat {
    if pcs == [] then 0 else Held(pcs[0], v) + Pending(pcs[1..], v)
  }

  function Count(log: seq<Task>, v: Task): nat { multiset(log)[v] }

  lemma CountMore(log: seq<Task>, x: Task, v: Task)
    ensures Count(log + [x], v) == Count(log, v) + if x == v then 1 else 0
  {
  }

  lemma {:induction false} PendingUpdate(pcs: seq<Pc>, next: seq<Pc>, t: nat, v: Task)
    requires t < |pcs| == |next|
    requires forall u :: 0 <= u < |pcs| && u != t ==> Held(next[u], v) == Held(pcs[u], v)
    ensures Pending(next, v) + Held(pcs[t], v) == Pending(pcs, v) + Held(next[t], v)
  {
    hide Held;
    if t == 0 {
      PendingSame(pcs[1..], next[1..], v);
    } else {
      PendingUpdate(pcs[1..], next[1..], t - 1, v);
    }
  }

  lemma {:induction false} PendingSame(pcs: seq<Pc>, next: seq<Pc>, v: Task)
    requires |pcs| == |next| && forall u :: 0 <= u < |pcs| ==> Held(next[u], v) == Held(pcs[u], v)
    ensures Pending(next, v) == Pending(pcs, v)
  {
    hide Held;
    if pcs != [] {
      PendingSame(pcs[1..], next[1..], v);
    }
  }

  /** Accepted, refused and pending pushes of v together. */
  function Account(s: State, v: Task): nat {
    Count(s.accepted, v) + Count(s.refused, v) + Pending(s.pcs, v)
  }

  lemma AccountOwn(s: State, t: nat, w: nat, v: Task)
    requires s.owner == t && Enabled(s, Inside(t, w))
    ensures var n := Critical(s, t, w);
            && |n.pcs| == |s.pcs|
            && Count(n.accepted, v) + Count(n.refused, v) + Held(n.pcs[t], v)
               == Count(s.accepted, v) + Count(s.refused, v) + Held(s.pcs[t], v)
  {
    hide Count;
    if Pushing(s.pcs[t]) {
      hide PopStep, ExitStep;
      if s.pcs[t].PushTest? {
        CountMore(s.refused, s.pcs[t].v, v);
      } else if s.pcs[t].PushCommit? {
        CountMore(s.accepted, s.pcs[t].v, v);
      }
    } else if s.pcs[t].ExitAll? {
      hide PushStep, PopStep;
    } else {
      hide PushStep, ExitStep;
    }
  }

  lemma AccountInside(s: State, t: nat, w: nat, v: Task)
    requires s.owner == t && Enabled(s, Inside(t, w))
    ensures var n := Critical(s, t, w);
            && |n.pcs| == |s.pcs|
            && (forall u :: 0 <= u < |s.pcs| && u != t ==> Held(n.pcs[u], v) == Held(s.pcs[u], v))
            && Count(n.accepted, v) + Count(n.refused, v) + Held(n.pcs[t], v)
               == Count(s.accepted, v) + Count(s.refused, v) + Held(s.pcs[t], v)
  {
    hide Critical, Count;
    CriticalFrame(s, t, w);
    AccountOwn(s, t, w, v);
  }

  lemma AccountStep(s: State, e: Step, v: Task)
    requires Mutex(s) && Enabled(s, e)
    ensures Account(Next(s, e), v) == Account(s, v) + if e.StartPush? && e.v == v then 1 else 0
  {
    hide Critical, Pending, Count;
    var n := Next(s, e);
    if e.Inside? {
      AccountInside(s, e.t, e.w, v);
    }
    PendingUpdate(s.pcs, n.pcs, e.t, v);
  }

  /** How often a run calls push with v. */
  function Pushed(s: State, steps: seq<Step>, v: Task): nat
    decreases |steps|
  {
    if steps == [] then 0
    else if Enabled(s, steps[0]) then
      (if steps[0].StartPush? && steps[0].v == v then 1 else 0) + Pushed(Next(s, steps[0]), steps[1..], v)
    else Pushed(s, steps[1..], v)
  }

  lemma {:induction false} RunAccounts(s: State, steps: seq<Step>, v: Task)
    requires Inv(s)
    ensures Account(Run(s, steps), v) == Account(s, v) + Pushed(s, steps, v)
    decreases |steps|
  {
    hide Inv, Next, Enabled, Account;
    if steps != [] {
      if Enabled(s, steps[0]) {
        StepKeepsInv(s, steps[0]);
        InvMutex(s);
        AccountStep(s, steps[0], v);
        RunAccounts(Next(s, steps[0]), steps[1..], v);
      } else {
        RunAccounts(s, steps[1..], v);
      }
    }
  }

  lemma InvMutex(s: State)
    requires Inv(s)
    ensures Mutex(s) && Roles(s)
  {
  }

  // ----- over every run -----

  lemma {:induction false} RunKeepsWorks(s: State, steps: seq<Step>)
    requires Inv(s) && Works(s) && Bounded(s)
    ensures Inv(Run(s, steps)) && Works(Run(s, steps)) && Bounded(Run(s, steps))
    decreases |steps|
  {
    hide Inv, Next, Enabled, Works, Bounded, Mutex, Roles;
    if steps != [] {
      if Enabled(s, steps[0]) {
        StepKeepsInv(s, steps[0]);
        InvMutex(s);
        WorksStep(s, steps[0]);
        BoundedStep(s, steps[0]);
        RunKeepsWorks(Next(s, steps[0]), steps[1..]);
      } else {
        RunKeepsWorks(s, steps[1..]);
      }
    }
  }

  /** Over every run, each worker has called exactly the tasks it took from the queue, in order, but
      for the one it is in; a bounded queue keeps to its capacity; and an unbounded one has
      refused nothing before exit. */
  lemma WorkersRunWhatTheyTake(workers: nat, clients: nat, capacity: nat, steps: seq<Step>)
    ensures var s := Run(Start(workers, clients, capacity), steps);
            && Works(s) && s.workers == workers <= |s.pcs|
            && (forall t :: 0 <= t < workers ==> Of(s.took, t) == Of(s.ran, t) + InHand(s.pcs[t]))
            && (capacity != 0 ==> |s.items| <= capacity)
            && (capacity == 0 && !s.exiting ==> s.refused == [])
  {
    StartInv(workers, clients, capacity);
    RunKeepsWorks(Start(workers, clients, capacity), steps);
    RunSetup(Start(workers, clients, capacity), steps);
    hide Run, Of, Exits, NoLostWakeup, Fifo, Shutdown, ExitComing;
  }

  lemma {:induction false} RunSetup(s: State, steps: seq<Step>)
    ensures Run(s, steps).workers == s.workers && Run(s, steps).capacity == s.capacity
    decreases |steps|
  {
    if steps != [] {
      RunSetup(if Enabled(s, steps[0]) then Next(s, steps[0]) else s, steps[1..]);
    }
  }

  /** However often a run calls push with v, that often it has been accepted or refused or is under
      way. */
  lemma PushesAccounted(workers: nat, clients: nat, capacity: nat, steps: seq<Step>, v: Task)
    ensures var s := Run(Start(workers, clients, capacity), steps);
            Count(s.accepted, v) + Count(s.refused, v) + Pending(s.pcs, v)
            == Pushed(Start(workers, clients, capacity), steps, v)
  {
    var s0 := Start(workers, clients, capacity);
    StartInv(workers, clients, capacity);
    StartPending(s0.pcs, v);
    RunAccounts(s0, steps, v);
    hide Run, Inv;
  }

  lemma {:induction false} StartPending(pcs: seq<Pc>, v: Task)
    requires forall i :: 0 <= i < |pcs| ==> pcs[i].Top? || pcs[i].Idle?
    ensures Pending(pcs, v) == 0
  {
    if pcs != [] {
      StartPending(pcs[1..], v);
    }
  }

  // ----- no task runs twice -----

  lemma {:induction false} CountOf(log: seq<Job>, j: Job)
    ensures multiset(log)[j] == multiset(Of(log, j.t))[j.v]
    decreases |log|
  {
    if log != [] {
      var init, last := log[..|log| - 1], log[|log| - 1];
      assert log == init + [last];
      CountOf(init, j);
      assert multiset(log) == multiset(init) + multiset{last};
    }
  }

  lemma RanWasTaken(s: State, j: Job)
    requires Works(s) && s.workers <= |s.pcs|
    ensures multiset(s.ran)[j] <= multiset(s.took)[j]
  {
    CountOf(s.ran, j);
    CountOf(s.took, j);
    if j.t < s.workers {
      assert multiset(Of(s.took, j.t)) == multiset(Of(s.ran, j.t)) + multiset(InHand(s.pcs[j.t]));
    }
    assert j.t >= s.workers ==> j !in s.ran;
  }

  /** If no two accepted tasks are the same, no task is run twice, by the same worker or by two. */
  lemma NoTaskTwice(workers: nat, clients: nat, capacity: nat, steps: seq<Step>)
    ensures var s := Run(Start(workers, clients, capacity), steps);
            Distinct(s.accepted) ==>
              && (forall i, j :: 0 <= i < j < |s.ran| ==> s.ran[i].v != s.ran[j].v)
              && (forall i :: 0 <= i < |s.ran| ==> s.ran[i].v in s.accepted)
  {
    WorkersRunWhatTheyTake(workers, clients, capacity, steps);
    PoolOrder(workers, clients, capacity, steps);
    var s := Run(Start(workers, clients, capacity), steps);
    hide Run, Start, Of;
    if Distinct(s.accepted) {
      forall i | 0 <= i < |s.ran| ensures s.ran[i] in s.took && s.ran[i].v in s.accepted {
        RanWasTaken(s, s.ran[i]);
        var p :| 0 <= p < |s.took| && s.took[p] == s.ran[i];
        assert s.dequeued[p] == s.accepted[p];
      }
      forall i, j | 0 <= i < j < |s.ran| ensures s.ran[i].v != s.ran[j].v {
        RanTwice(s, i, j);
      }
    }
  }

  lemma RanTwice(s: State, i: nat, j: nat)
    requires Works(s) && s.workers <= |s.pcs| && Distinct(s.dequeued) && i < j < |s.ran|
    ensures s.ran[i].v != s.ran[j].v
  {
    hide Of;
    var a, b := s.ran[i], s.ran[j];
    RanWasTaken(s, a);
    RanWasTaken(s, b);
    assert a in multiset(s.ran) && b in multiset(s.ran);
    var p :| 0 <= p < |s.took| && s.took[p] == a;
    var q :| 0 <= q < |s.took| && s.took[q] == b;
    if a.v == b.v {
      assert s.dequeued[p] == s.dequeued[q];
      assert a == b;
      TwiceIn(s.ran, i, j);
      OnceIn(s.took, a);
    }
  }

  lemma TwiceIn(log: seq<Job>, i: nat, j: nat)
    requires i < j < |log| && log[i] == log[j]
    ensures multiset(log)[log[i]] >= 2
  {
    assert log == log[..j] + log[j..];
    assert log[i] in log[..j] && log[j] in log[j..];
  }

  lemma {:induction false} OnceIn(log: seq<Job>, j: Job)
    requires forall p, q :: 0 <= p < q < |log| ==> log[p].v != log[q].v
    ensures multiset(log)[j] <= 1
    decreases |log|
  {
    if log != [] {
      var init, last := log[..|log| - 1], log[|log| - 1];
      assert log == init + [last];
      OnceIn(init, j);
      if j == last {
        assert j !in init;
      }
    }
  }

  // ----- after exit -----

  /** A worker between its test of exited() and the end of its pop. */
  function MayTake(pc: Pc): nat {
    if pc.Running? || pc.Top? || pc.Done? then 0 else 1
  }

  function MayCommit(s: State): nat {
    if 0 <= s.owner < |s.pcs| && s.pcs[s.owner].PushCommit? then 1 else 0
  }

  lemma LateInside(s: State, t: nat, w: nat)
    requires Mutex(s) && Roles(s) && s.exiting && Enabled(s, Inside(t, w))
    ensures var n := Critical(s, t, w);
            && n.exiting && |n.pcs| == |s.pcs| && n.workers == s.workers
            && |n.accepted| + MayCommit(n) <= |s.accepted| + MayCommit(s)
            && n.latePushes - s.latePushes == |n.accepted| - |s.accepted|
            && (t < s.workers && s.pcs[t].PopTake? ==> MayTake(n.pcs[t]) == 0)
  {
    if Pushing(s.pcs[t]) {
      hide PopStep, ExitStep, Roles;
    } else if s.pcs[t].ExitAll? {
      hide PushStep, PopStep, Roles;
    } else {
      hide PushStep, ExitStep;
    }
  }

  lemma LateTake(s: State, e: Step, u: nat)
    requires Mutex(s) && Roles(s) && s.exiting && Enabled(s, e) && u < s.workers
    ensures var n := Next(s, e);
            && n.exiting && |n.pcs| == |s.pcs| && n.workers == s.workers
            && |n.accepted| + MayCommit(n) <= |s.accepted| + MayCommit(s)
            && |Of(n.took, u)| + MayTake(n.pcs[u]) <= |Of(s.took, u)| + MayTake(s.pcs[u])
  {
    hide Critical, Of;
    if e.Inside? {
      LateInside(s, e.t, e.w);
      CriticalFrame(s, e.t, e.w);
      TakesFront(s, e.t, e.w);
      if s.pcs[e.t].PopTake? && s.items != [] {
        OfMore(s.took, Job(e.t, s.items[0]), u);
      }
      hide Mutex;
    }
  }

  lemma LatePush(s: State, e: Step)
    requires Mutex(s) && Roles(s) && s.exiting && Enabled(s, e)
    ensures var n := Next(s, e);
            n.exiting && n.workers == s.workers && |n.accepted| + MayCommit(n) <= |s.accepted| + MayCommit(s)
  {
    hide Critical;
    if e.Inside? {
      LateInside(s, e.t, e.w);
    }
  }

  lemma {:induction false} LateRun(s: State, steps: seq<Step>, u: nat)
    requires Inv(s) && s.exiting && u < s.workers
    ensures var r := Run(s, steps);
            && Inv(r) && r.workers == s.workers <= |s.pcs| == |r.pcs|
            && |r.accepted| + MayCommit(r) <= |s.accepted| + MayCommit(s)
            && |Of(r.took, u)| + MayTake(r.pcs[u]) <= |Of(s.took, u)| + MayTake(s.pcs[u])
    decreases |steps|
  {
    hide Inv, Next, Enabled, Mutex, Of, MayCommit, MayTake;
    InvMutex(s);
    if steps != [] {
      if Enabled(s, steps[0]) {
        StepKeepsInv(s, steps[0]);
        LateTake(s, steps[0], u);
        LateRun(Next(s, steps[0]), steps[1..], u);
      } else {
        LateRun(s, steps[1..], u);
      }
    }
  }

  lemma {:induction false} LateRunPushes(s: State, steps: seq<Step>)
    requires Inv(s) && s.exiting
    ensures |Run(s, steps).accepted| + MayCommit(Run(s, steps)) <= |s.accepted| + MayCommit(s)
    decreases |steps|
  {
    hide Inv, Next, Enabled, Mutex, Roles, MayCommit;
    if steps != [] {
      if Enabled(s, steps[0]) {
        InvMutex(s);
        StepKeepsInv(s, steps[0]);
        LatePush(s, steps[0]);
        LateRunPushes(Next(s, steps[0]), steps[1..]);
      } else {
        LateRunPushes(s, steps[1..]);
      }
    }
  }

  /** From the store of m_exit on, however the run goes, a worker dequeues at most one more task and
      at most one more push is accepted. */
  lemma ExitCutsOff(workers: nat, clients: nat, capacity: nat, before: seq<Step>, after: seq<Step>)
    ensures var s := Run(Start(workers, clients, capacity), before);
            var r := Run(s, after);
            s.exiting ==>
              && |r.accepted| <= |s.accepted| + 1
              && forall u :: 0 <= u < workers ==> |Of(r.took, u)| <= |Of(s.took, u)| + 1
  {
    StartInv(workers, clients, capacity);
    QueueRuns.RunKeepsInv(Start(workers, clients, capacity), before);
    RunSetup(Start(workers, clients, capacity), before);
    var s := Run(Start(workers, clients, capacity), before);
    assert s.workers == workers;
    hide Run, Start, Inv, Of;
    if s.exiting {
      LateRunPushes(s, after);
      forall u | 0 <= u < workers ensures |Of(Run(s, after).took, u)| <= |Of(s.took, u)| + 1 {
        LateRun(s, after, u);
      }
    }
  }

  // ----- nothing is left behind -----

  /** Nothing can move but new client operations and spurious wake-ups. */
  ghost predicate Settled(s: State) {
    forall e :: Enabled(s, e) ==>
      e.StartPush? || e.StartPop? || e.StartPopNow? || e.StartExit? || e.WakeSpuriously?
  }

  lemma SettledIsFree(s: State)
    requires Mutex(s) && Settled(s)
    ensures s.owner == -1
  {
    if s.owner != -1 {
      var w := HolderMoves(s);
    }
  }

  lemma {:induction false} NoHands(pcs: seq<Pc>)
    requires forall t :: 0 <= t < |pcs| ==> !Holds(pcs[t]) && !pcs[t].Notified?
    ensures Hands(pcs) == 0
  {
    if pcs != [] {
      assert !Holds(pcs[0]);
      NoHands(pcs[1..]);
    }
  }

  /** Before exit, a pool with workers that has come to rest has every worker waiting, an empty
      queue, and every accepted task dequeued; what its workers took they have run. */
  lemma QuietMeansServed(s: State)
    requires Inv(s) && Works(s) && Settled(s) && !s.exiting && s.workers > 0
    ensures s.items == [] && s.accepted == s.dequeued
    ensures forall t :: 0 <= t < s.workers ==>
              t < |s.pcs| && s.pcs[t].Waiting? && Of(s.took, t) == Of(s.ran, t)
  {
    hide Shutdown, ExitComing, Of;
    SettledIsFree(s);
    forall t | 0 <= t < |s.pcs| ensures !Holds(s.pcs[t]) && !Wants(s.pcs[t]) {
      assert !Enabled(s, Lock(t));
    }
    forall t | 0 <= t < s.workers ensures s.pcs[t].Waiting? && Of(s.took, t) == Of(s.ran, t) {
      assert WorkerPc(s.pcs[t]);
      assert !Enabled(s, TestExited(t)) && !Enabled(s, Lock(t)) && !Enabled(s, FinishTask(t));
      assert Of(s.ran, t) + [] == Of(s.ran, t);
    }
    assert s.pcs[0].Waiting?;
    NoHands(s.pcs);
    assert s.dequeued + [] == s.dequeued;
  }

  /** For every run from the start, with at least one worker and no client of its own that pops:
      at rest before exit, each accepted task has been called. */
  lemma PoolServes(workers: nat, clients: nat, capacity: nat, steps: seq<Step>)
    requires workers > 0
    ensures var s := Run(Start(workers, clients, capacity), steps);
            Settled(s) && !s.exiting && (forall i :: 0 <= i < |s.took| ==> s.took[i].t < workers) ==>
              forall v :: v in s.accepted ==> exists i :: 0 <= i < |s.ran| && s.ran[i].v == v
  {
    StartInv(workers, clients, capacity);
    RunKeepsWorks(Start(workers, clients, capacity), steps);
    RunSetup(Start(workers, clients, capacity), steps);
    var s := Run(Start(workers, clients, capacity), steps);
    hide Run, Start;
    if Settled(s) && !s.exiting && forall i :: 0 <= i < |s.took| ==> s.took[i].t < workers {
      QuietMeansServed(s);
      hide Inv, Of;
      forall v | v in s.accepted ensures exists i :: 0 <= i < |s.ran| && s.ran[i].v == v {
        var p :| 0 <= p < |s.dequeued| && s.dequeued[p] == v;
        var j := s.took[p];
        CountOf(s.took, j);
        CountOf(s.ran, j);
        assert j in multiset(s.took);
        assert j in s.ran;
      }
    }
  }

  // ----- a run that gets there -----

  lemma RunFirst(s: State, e: Step, rest: seq<Step>)
    requires Enabled(s, e)
    ensures Run(s, [e] + rest) == Run(Next(s, e), rest)
  {
    assert ([e] + rest)[1..] == rest;
  }

  /** One worker, and one client whose push of v is in. */
  function Given(v: Task): State {
    State(1, 0, [Top, Idle], -1, [v], false, false, [v], [], [0, 0], 0, [], [], [])
  }

  lemma ClientGives(v: Task, rest: seq<Step>)
    ensures Run(Start(1, 1, 0), [StartPush(1, v)] + ([Lock(1)] + ([Inside(1, 0)] + ([Inside(1, 0)]
            + ([Inside(1, 0)] + rest))))) == Run(Given(v), rest)
  {
    hide Run, PopStep, ExitStep;
    var s0 := Start(1, 1, 0);
    assert s0.pcs == [Top, Idle] && s0.latePops == [0, 0];
    var s1 := Next(s0, StartPush(1, v));
    var s2 := Next(s1, Lock(1));
    var s3 := Next(s2, Inside(1, 0));
    var s4 := Next(s3, Inside(1, 0));
    assert s4.pcs == [Top, PushNotify];
    var t4 := [Inside(1, 0)] + rest;
    var t3 := [Inside(1, 0)] + t4;
    var t2 := [Inside(1, 0)] + t3;
    RunFirst(s0, StartPush(1, v), [Lock(1)] + t2);
    RunFirst(s1, Lock(1), t2);
    RunFirst(s2, Inside(1, 0), t3);
    RunFirst(s3, Inside(1, 0), t4);
    RunFirst(s4, Inside(1, 0), rest);
    assert Next(s4, Inside(1, 0)) == Given(v);
  }

  /** A client pushes v, and the worker takes it and runs it. */
  lemma PoolRunsOne(v: Task)
    ensures var s := Run(Start(1, 1, 0), [StartPush(1, v)] + ([Lock(1)] + ([Inside(1, 0)] + ([Inside(1, 0)]
              + ([Inside(1, 0)] + ([TestExited(0)] + ([Lock(0)] + ([Inside(0, 0)] + ([Inside(0, 0)]
              + ([FinishTask(0)] + []))))))))));
            s.accepted == [v] && s.items == [] && s.ran == [Job(0, v)] && s.pcs == [Top, Idle]
  {
    hide Run, PushStep, ExitStep;
    var t4 := [FinishTask(0)] + [];
    var t3 := [Inside(0, 0)] + t4;
    var t2 := [Inside(0, 0)] + t3;
    var t1 := [Lock(0)] + t2;
    ClientGives(v, [TestExited(0)] + t1);
    var s0 := Given(v);
    var s1 := Next(s0, TestExited(0));
    var s2 := Next(s1, Lock(0));
    var s3 := Next(s2, Inside(0, 0));
    var s4 := Next(s3, Inside(0, 0));
    RunFirst(s0, TestExited(0), t1);
    RunFirst(s1, Lock(0), t2);
    RunFirst(s2, Inside(0, 0), t3);
    RunFirst(s3, Inside(0, 0), t4);
    RunFirst(s4, FinishTask(0), []);
    RunNothing(Next(s4, FinishTask(0)));
  }

  lemma RunNothing(s: State)
    ensures Run(s, []) == s
  {
  }
}
