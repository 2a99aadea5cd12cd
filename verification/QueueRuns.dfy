/** What holds over every interleaving of a SafeQueue and its worker pool. */
module QueueRuns {
  import opened QueueProtocol

  lemma StepKeepsInv(s: State, e: Step)
    requires Inv(s) && Enabled(s, e)
    ensures Inv(Next(s, e))
  {
    hide Next, Mutex, Roles, Exits, NoLostWakeup, Fifo, Shutdown, ExitComing, Enabled;
    MutexStep(s, e);
    RolesStep(s, e);
    ExitsStep(s, e);
    WakeupStep(s, e);
    FifoStep(s, e);
    ShutdownStep(s, e);
    ComingStep(s, e);
  }

  lemma StartInv(workers: nat, clients: nat, capacity: nat)
    ensures Inv(Start(workers, clients, capacity))
  {
  }

  lemma {:induction false} RunKeepsInv(s: State, steps: seq<Step>)
    requires Inv(s)
    ensures Inv(Run(s, steps))
    decreases |steps|
  {
    hide Inv, Next, Enabled;
    if steps != [] {
      if Enabled(s, steps[0]) {
        StepKeepsInv(s, steps[0]);
        RunKeepsInv(Next(s, steps[0]), steps[1..]);
      } else {
        RunKeepsInv(s, steps[1..]);
      }
    }
  }

  // ----- wake-ups -----

  function Woken(pcs: seq<Pc>): nat {
    if pcs == [] then 0 else Woken(pcs[1..]) + if pcs[0].Notified? then 1 else 0
  }

  lemma {:induction false} HandsAreWoken(pcs: seq<Pc>)
    requires forall t :: 0 <= t < |pcs| ==> !Holds(pcs[t])
    ensures Hands(pcs) == Woken(pcs)
  {
    if pcs != [] {
      assert !Holds(pcs[0]);
      HandsAreWoken(pcs[1..]);
    }
  }

  /** Whenever the mutex is free and a thread is still blocked before exit, there are at least
      as many woken threads on their way as there are items: none of them is stranded. */
  lemma ItemsHaveWokenThreads(workers: nat, clients: nat, capacity: nat, steps: seq<Step>)
    ensures var s := Run(Start(workers, clients, capacity), steps);
            s.owner == -1 && !s.exitDone && SomeWaiting(s.pcs) ==> |s.items| <= Woken(s.pcs)
  {
    StartInv(workers, clients, capacity);
    RunKeepsInv(Start(workers, clients, capacity), steps);
    var s := Run(Start(workers, clients, capacity), steps);
    hide Run, Start, Roles, Exits, Fifo, Shutdown;
    if s.owner == -1 {
      HandsAreWoken(s.pcs);
    }
  }

  lemma ExitDoneStays(s: State, e: Step)
    requires Enabled(s, e) && s.exitDone
    ensures Next(s, e).exitDone && Next(s, e).workers == s.workers
  {
  }

  /** After exit's notify_all nobody blocks in the queue any more, in any continuation. */
  lemma {:induction false} NobodyWaitsAfterExit(s: State, steps: seq<Step>)
    requires Inv(s) && s.exitDone
    ensures var r := Run(s, steps);
            Inv(r) && r.exitDone && r.workers == s.workers && !SomeWaiting(r.pcs)
    decreases |steps|
  {
    hide Next, Enabled, Mutex, Roles, NoLostWakeup, Fifo, Shutdown;
    if steps != [] {
      if Enabled(s, steps[0]) {
        StepKeepsInv(s, steps[0]);
        ExitDoneStays(s, steps[0]);
        NobodyWaitsAfterExit(Next(s, steps[0]), steps[1..]);
      } else {
        NobodyWaitsAfterExit(s, steps[1..]);
      }
    }
  }

  // ----- tasks -----

  predicate Distinct(ts: seq<Task>) {
    forall i, j :: 0 <= i < j < |ts| ==> ts[i] != ts[j]
  }

  /** Tasks leave in the order they were accepted, and none leaves twice; a worker holds back
      at most one task after m_exit is set, and at most one push still gets in. */
  lemma PoolOrder(workers: nat, clients: nat, capacity: nat, steps: seq<Step>)
    ensures var s := Run(Start(workers, clients, capacity), steps);
            && s.dequeued <= s.accepted && s.accepted == s.dequeued + s.items
            && (Distinct(s.accepted) ==> Distinct(s.dequeued) && forall v :: v in s.items ==> v !in s.dequeued)
            && s.latePushes <= 1
            && |s.latePops| == |s.pcs|
            && forall t :: 0 <= t < s.workers && t < |s.pcs| ==> s.latePops[t] <= 1
  {
    StartInv(workers, clients, capacity);
    RunKeepsInv(Start(workers, clients, capacity), steps);
    var s := Run(Start(workers, clients, capacity), steps);
    hide Run, Start, Roles, Exits, NoLostWakeup, Mutex;
    if Distinct(s.accepted) {
      assert forall i :: 0 <= i < |s.dequeued| ==> s.dequeued[i] == s.accepted[i];
      assert forall i :: 0 <= i < |s.items| ==> s.items[i] == s.accepted[|s.dequeued| + i];
    }
  }

  // ----- shutdown -----

  /** How many steps a worker may still take once m_exit is set. */
  function PcRank(pc: Pc): nat {
    match pc
    case Done => 0
    case Top => 1
    case Running(_) => 2
    case PopTake => 3
    case PopPred => 4
    case PopTest => 5
    case Notified => 5
    case WantPop => 6
    case Waiting => 7
    case _ => 8
  }

  function Rank(pcs: seq<Pc>, workers: nat): nat {
    if pcs == [] || workers == 0 then 0 else PcRank(pcs[0]) + Rank(pcs[1..], workers - 1)
  }

  lemma {:induction false} RankFalls(pcs: seq<Pc>, next: seq<Pc>, workers: nat, t: nat)
    requires t < |pcs| == |next|
    requires forall u :: 0 <= u < |pcs| && u < workers ==> PcRank(next[u]) <= PcRank(pcs[u])
    requires t < workers ==> PcRank(next[t]) < PcRank(pcs[t])
    ensures Rank(next, workers) + (if t < workers then 1 else 0) <= Rank(pcs, workers)
  {
    if workers > 0 && |pcs| > 1 {
      if t == 0 {
        RankFallsNowhere(pcs[1..], next[1..], workers - 1);
      } else {
        RankFalls(pcs[1..], next[1..], workers - 1, t - 1);
      }
    }
  }

  lemma {:induction false} RankFallsNowhere(pcs: seq<Pc>, next: seq<Pc>, workers: nat)
    requires |pcs| == |next|
    requires forall u :: 0 <= u < |pcs| && u < workers ==> PcRank(next[u]) <= PcRank(pcs[u])
    ensures Rank(next, workers) <= Rank(pcs, workers)
  {
    if workers > 0 && pcs != [] {
      RankFallsNowhere(pcs[1..], next[1..], workers - 1);
    }
  }

  /** A worker that moves inside the mutex with m_exit set. */
  lemma LateOwn(s: State, t: nat, w: nat)
    requires s.exiting && t < s.workers && Enabled(s, Inside(t, w)) && WorkerPc(s.pcs[t])
    ensures PcRank(Critical(s, t, w).pcs[t]) < PcRank(s.pcs[t])
  {
    hide PushStep, ExitStep;
  }

  /** With m_exit set, a step lowers the rank of the worker that takes it and raises no other's,
      wake-ups included. */
  lemma LateStep(s: State, e: Step)
    requires Inv(s) && s.exiting && Enabled(s, e)
    ensures var n := Next(s, e);
            && n.exiting && n.workers == s.workers && |n.pcs| == |s.pcs|
            && (forall u :: 0 <= u < s.workers ==> PcRank(n.pcs[u]) <= PcRank(s.pcs[u]))
            && (e.t < s.workers ==> PcRank(n.pcs[e.t]) < PcRank(s.pcs[e.t]))
  {
    hide Critical, Exits, NoLostWakeup, Fifo, Shutdown, ExitComing;
    assert e.t < s.workers ==> WorkerPc(s.pcs[e.t]);
    if e.Inside? {
      CriticalFrame(s, e.t, e.w);
      ExitFrame(s, e.t, e.w);
      if e.t < s.workers {
        LateOwn(s, e.t, e.w);
      }
    }
  }

  function WorkerSteps(s: State, steps: seq<Step>): nat
    decreases |steps|
  {
    if steps == [] then 0
    else if Enabled(s, steps[0]) then
      (if steps[0].t < s.workers then 1 else 0) + WorkerSteps(Next(s, steps[0]), steps[1..])
    else WorkerSteps(s, steps[1..])
  }

  /** Once m_exit is set, the workers together take at most Rank more steps, however the other
      threads behave. */
  lemma {:induction false} WorkersRunOut(s: State, steps: seq<Step>)
    requires Inv(s) && s.exiting
    ensures WorkerSteps(s, steps) + Rank(Run(s, steps).pcs, s.workers) <= Rank(s.pcs, s.workers)
    decreases |steps|
  {
    hide Inv, Next, Enabled, Rank;
    if steps != [] {
      var e := steps[0];
      if Enabled(s, e) {
        var n := Next(s, e);
        StepKeepsInv(s, e);
        LateStep(s, e);
        StepInRange(s, e);
        RankFalls(s.pcs, n.pcs, s.workers, e.t);
        WorkersRunOut(n, steps[1..]);
      } else {
        WorkersRunOut(s, steps[1..]);
      }
    }
  }

  lemma StepInRange(s: State, e: Step)
    requires Enabled(s, e)
    ensures e.t < |s.pcs|
  {
  }

  /** Nothing is left to do but starting new client operations. */
  ghost predicate Quiescent(s: State) {
    forall e :: Enabled(s, e) ==> e.StartPush? || e.StartPop? || e.StartPopNow? || e.StartExit?
  }

  /** A thread inside the mutex can always go on. */
  lemma HolderMoves(s: State) returns (w: nat)
    requires Mutex(s) && s.owner != -1
    ensures Enabled(s, Inside(s.owner, w))
  {
    w := if SomeWaiting(s.pcs) then (var u :| 0 <= u < |s.pcs| && s.pcs[u].Waiting?; u) else 0;
  }

  lemma QuietMeansFree(s: State)
    requires Mutex(s) && Quiescent(s)
    ensures s.owner == -1
  {
    if s.owner != -1 {
      var w := HolderMoves(s);
    }
  }

  /** No deadlock: from the store of m_exit on, as long as a worker has not left its loop some
      step is possible, so a run that cannot go on has notified everybody and joined every
      worker. */
  lemma QuietMeansJoined(s: State)
    requires Inv(s) && s.exiting && Quiescent(s)
    ensures s.exitDone && forall t :: 0 <= t < s.workers ==> s.pcs[t].Done?
  {
    hide NoLostWakeup, Fifo, Shutdown;
    QuietMeansFree(s);
    forall t | 0 <= t < |s.pcs| ensures !Wants(s.pcs[t]) && !s.pcs[t].ExitAll? {
      assert !Enabled(s, Lock(t));
    }
    forall t | 0 <= t < s.workers ensures s.pcs[t].Done? {
      assert WorkerPc(s.pcs[t]);
      assert !Enabled(s, TestExited(t)) && !Enabled(s, Lock(t)) && !Enabled(s, FinishTask(t));
    }
  }

  /** The two results for every run from the start. */
  lemma PoolStops(workers: nat, clients: nat, capacity: nat, before: seq<Step>, after: seq<Step>)
    ensures var s := Run(Start(workers, clients, capacity), before);
            && workers <= |s.pcs|
            && (s.exiting ==>
                  && WorkerSteps(s, after) <= Rank(s.pcs, workers) <= 8 * workers
                  && (Quiescent(s) ==> s.exitDone && forall t :: 0 <= t < workers ==> s.pcs[t].Done?))
  {
    StartInv(workers, clients, capacity);
    RunKeepsInv(Start(workers, clients, capacity), before);
    RunWorkers(Start(workers, clients, capacity), before);
    var s := Run(Start(workers, clients, capacity), before);
    assert s.workers == workers <= |s.pcs|;
    hide Run, Start, Inv, Quiescent, Rank, WorkerSteps;
    RankBound(s.pcs, workers);
    if s.exiting {
      WorkersRunOut(s, after);
      if Quiescent(s) {
        QuietMeansJoined(s);
      }
    }
  }

  lemma {:induction false} RunWorkers(s: State, steps: seq<Step>)
    ensures Run(s, steps).workers == s.workers
    decreases |steps|
  {
    if steps != [] {
      RunWorkers(if Enabled(s, steps[0]) then Next(s, steps[0]) else s, steps[1..]);
    }
  }

  lemma {:induction false} RankBound(pcs: seq<Pc>, workers: nat)
    ensures Rank(pcs, workers) <= 8 * workers
  {
    if workers > 0 && pcs != [] {
      RankBound(pcs[1..], workers - 1);
    }
  }
}
