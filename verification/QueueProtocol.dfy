/** SafeQueue under its mutex and condition variable, with the worker loop of ThreadPool:
    every interleaving of atomic steps, one program counter per thread. */
module QueueProtocol {

  type Task = nat

  /** Where a thread is. The states from PushTest to ExitAll hold the mutex. */
  datatype Pc =
    | Idle                 // outside the queue
    | Top                  // a worker about to test exited()
    | WantPush(v: Task)
    | WantPop
    | WantPopNow
    | WantExit             // m_exit is stored, the mutex is not taken yet
    | Waiting              // blocked in the condition variable
    | Notified             // woken, must take the mutex again
    | Running(v: Task)     // a worker inside task()
    | Done                 // a worker that left its loop
    | PushTest(v: Task)    // before the test of m_exit and the capacity
    | PushCommit(v: Task)  // the test passed
    | PushNotify           // the item is in, before notify_one
    | PopTest              // the test at the head of wait_ready
    | PopPred              // the predicate of the condition variable's wait
    | PopBlock             // the predicate was false, about to wait
    | PopTake              // back in pop_wait
    | ExitAll              // before notify_all

  predicate Holds(pc: Pc) {
    pc.PushTest? || pc.PushCommit? || pc.PushNotify? || pc.PopTest? || pc.PopPred? ||
    pc.PopBlock? || pc.PopTake? || pc.ExitAll?
  }

  /** A task and the thread that dequeued it or ran it. */
  datatype Job = Job(t: nat, v: Task)

  /** The fields from exitDone on record history only: a late pop or push is one that takes effect
      after m_exit was set, took tells who dequeued what, and ran what the workers have called. */
  datatype State = State(
    workers: nat,
    capacity: nat,
    pcs: seq<Pc>,
    owner: int,
    items: seq<Task>,
    exiting: bool,
    exitDone: bool,
    accepted: seq<Task>,
    dequeued: seq<Task>,
    latePops: seq<nat>,
    latePushes: nat,
    refused: seq<Task>,
    took: seq<Job>,
    ran: seq<Job>)

  /** t takes its next step; w is the waiter that notify_one picks, if it has a choice. */
  datatype Step =
    | StartPush(t: nat, v: Task)
    | StartPop(t: nat)
    | StartPopNow(t: nat)
    | StartExit(t: nat)
    | TestExited(t: nat)
    | Lock(t: nat)
    | Inside(t: nat, w: nat)
    | WakeSpuriously(t: nat)
    | FinishTask(t: nat)

  predicate SomeWaiting(pcs: seq<Pc>) {
    exists w :: 0 <= w < |pcs| && pcs[w].Waiting?
  }

  predicate Wants(pc: Pc) {
    pc.WantPush? || pc.WantPop? || pc.WantPopNow? || pc.WantExit? || pc.Notified?
  }

  predicate Enabled(s: State, e: Step) {
    && e.t < |s.pcs|
    && var pc := s.pcs[e.t];
       match e
       case StartPush(_, _) => pc.Idle?
       case StartPop(_) => pc.Idle?
       case StartPopNow(_) => pc.Idle?
       case StartExit(_) => pc.Idle?
       case TestExited(_) => pc.Top?
       case Lock(_) => Wants(pc) && s.owner == -1
       case Inside(_, w) =>
         Holds(pc) && (pc.PushNotify? && SomeWaiting(s.pcs) ==> w < |s.pcs| && s.pcs[w].Waiting?)
       case WakeSpuriously(_) => pc.Waiting?
       case FinishTask(_) => pc.Running?
  }

  function Outside(s: State, t: nat): Pc { if t < s.workers then Top else Idle }

  function Move(s: State, t: nat, pc: Pc): State
    requires t < |s.pcs|
  {
    s.(pcs := s.pcs[t := pc])
  }

  /** Leaves the critical section. */
  function Leave(s: State, t: nat, pc: Pc): State
    requires t < |s.pcs|
  {
    s.(pcs := s.pcs[t := pc], owner := -1)
  }

  function AfterLock(pc: Pc): Pc
    requires Wants(pc)
  {
    match pc
    case WantPush(v) => PushTest(v)
    case WantPop => PopTest
    case WantPopNow => PopTake
    case WantExit => ExitAll
    case Notified => PopPred
  }

  function WakeAll(pcs: seq<Pc>): (r: seq<Pc>)
    ensures |r| == |pcs|
    ensures forall i :: 0 <= i < |pcs| ==> r[i] == if pcs[i].Waiting? then Notified else pcs[i]
  {
    seq(|pcs|, i requires 0 <= i < |pcs| => if pcs[i].Waiting? then Notified else pcs[i])
  }

  function Bump(counts: seq<nat>, t: nat, late: bool): seq<nat> {
    if late && t < |counts| then counts[t := counts[t] + 1] else counts
  }

  /** The steps of push, of pop_wait with wait_ready, and of exit, inside the mutex. */
  function PushStep(s: State, t: nat, w: nat): State
    requires Enabled(s, Inside(t, w))
  {
    match s.pcs[t]
    case PushTest(v) =>
      if s.exiting || (s.capacity != 0 && |s.items| >= s.capacity) then
        Leave(s, t, Outside(s, t)).(refused := s.refused + [v])
      else Move(s, t, PushCommit(v))
    case PushCommit(v) =>
      Move(s, t, PushNotify).(items := s.items + [v], accepted := s.accepted + [v],
                              latePushes := s.latePushes + if s.exiting then 1 else 0)
    case PushNotify =>
      Leave(if SomeWaiting(s.pcs) then Move(s, w, Notified) else s, t, Outside(s, t))
    case _ => s
  }

  function PopStep(s: State, t: nat): State
    requires t < |s.pcs|
  {
    match s.pcs[t]
    case PopTest => Move(s, t, if s.exiting || s.items != [] then PopTake else PopPred)
    case PopPred => Move(s, t, if s.exiting || s.items != [] then PopTake else PopBlock)
    case PopBlock => Leave(s, t, Waiting)
    case PopTake =>
      if s.items == [] then Leave(s, t, Outside(s, t))
      else Leave(s, t, if t < s.workers then Running(s.items[0]) else Idle)
           .(items := s.items[1..], dequeued := s.dequeued + [s.items[0]],
             latePops := Bump(s.latePops, t, s.exiting), took := s.took + [Job(t, s.items[0])])
    case _ => s
  }

  function ExitStep(s: State, t: nat): State
    requires t < |s.pcs|
  {
    Leave(s.(pcs := WakeAll(s.pcs), exitDone := true), t, Outside(s, t))
  }

  predicate Pushing(pc: Pc) { pc.PushTest? || pc.PushCommit? || pc.PushNotify? }

  /** The step of the thread that holds the mutex. */
  function Critical(s: State, t: nat, w: nat): State
    requires Enabled(s, Inside(t, w))
  {
    if Pushing(s.pcs[t]) then PushStep(s, t, w)
    else if s.pcs[t].ExitAll? then ExitStep(s, t)
    else PopStep(s, t)
  }

  function Next(s: State, e: Step): State
    requires Enabled(s, e)
  {
    match e
    case StartPush(t, v) => Move(s, t, WantPush(v))
    case StartPop(t) => Move(s, t, WantPop)
    case StartPopNow(t) => Move(s, t, WantPopNow)
    case StartExit(t) => Move(s, t, WantExit).(exiting := true)
    case TestExited(t) => Move(s, t, if s.exiting then Done else WantPop)
    case Lock(t) => Move(s, t, AfterLock(s.pcs[t])).(owner := t)
    case Inside(t, w) => Critical(s, t, w)
    case WakeSpuriously(t) => Move(s, t, Notified)
    case FinishTask(t) => Move(s, t, Top).(ran := s.ran + [Job(t, s.pcs[t].v)])
  }

  /** Steps that are not enabled do not happen. */
  function Run(s: State, steps: seq<Step>): State
    decreases |steps|
  {
    if steps == [] then s
    else Run(if Enabled(s, steps[0]) then Next(s, steps[0]) else s, steps[1..])
  }

  /** workers threads that start in the worker loop, and clients others. */
  function Start(workers: nat, clients: nat, capacity: nat): State {
    State(workers, capacity,
          seq(workers + clients, i => if i < workers then Top else Idle),
          -1, [], false, false, [], [], seq(workers + clients, _ => 0), 0, [], [], [])
  }

  // ----- the invariant -----

  ghost predicate Mutex(s: State) {
    && -1 <= s.owner < |s.pcs|
    && forall t :: 0 <= t < |s.pcs| ==> (Holds(s.pcs[t]) <==> s.owner == t)
  }

  predicate WorkerPc(pc: Pc) {
    pc.Top? || pc.WantPop? || pc.Waiting? || pc.Notified? || pc.Running? || pc.Done? ||
    pc.PopTest? || pc.PopPred? || pc.PopBlock? || pc.PopTake?
  }

  ghost predicate Roles(s: State) {
    && s.workers <= |s.pcs| == |s.latePops|
    && (forall t :: 0 <= t < s.workers ==> WorkerPc(s.pcs[t]))
    && (forall t :: s.workers <= t < |s.pcs| ==> !s.pcs[t].Top? && !s.pcs[t].Running? && !s.pcs[t].Done?)
  }

  ghost predicate Exits(s: State) {
    && (forall t :: 0 <= t < |s.pcs| && (s.pcs[t].WantExit? || s.pcs[t].ExitAll? || s.pcs[t].Done?) ==> s.exiting)
    && (forall t :: 0 <= t < |s.pcs| && s.pcs[t].PopBlock? ==> s.items == [])
    && (s.exitDone ==>
          && s.exiting
          && forall t :: 0 <= t < |s.pcs| ==> !s.pcs[t].Waiting? && !s.pcs[t].PopBlock?)
  }

  /** The number of threads that are woken and have not yet taken the mutex, plus the one
      inside that is about to look at the items or to notify. */
  function Hands(pcs: seq<Pc>): nat {
    if pcs == [] then 0
    else Hands(pcs[1..]) + Hand(pcs[0])
  }

  function Hand(pc: Pc): nat {
    if pc.Notified? || pc.PopTest? || pc.PopPred? || pc.PopTake? || pc.PushNotify? then 1 else 0
  }

  /** While a thread is blocked before exit's notify_all, every queued item has a hand. */
  ghost predicate NoLostWakeup(s: State) {
    !s.exitDone && SomeWaiting(s.pcs) ==> |s.items| <= Hands(s.pcs)
  }

  ghost predicate Fifo(s: State) {
    s.accepted == s.dequeued + s.items
  }

  ghost predicate Shutdown(s: State) {
    && |s.latePops| == |s.pcs|
    && (forall t :: 0 <= t < s.workers && t < |s.pcs| ==>
         && s.latePops[t] <= 1
         && (s.latePops[t] == 1 ==> s.exiting && (s.pcs[t].Running? || s.pcs[t].Top? || s.pcs[t].Done?)))
    && s.latePushes <= 1
    && (s.latePushes == 1 ==>
          s.exiting && forall t :: 0 <= t < |s.pcs| ==> !s.pcs[t].PushCommit?)
  }

  /** Between the store of m_exit and notify_all, the thread that will notify is on its way. */
  ghost predicate ExitComing(s: State) {
    s.exiting && !s.exitDone ==> exists t :: 0 <= t < |s.pcs| && (s.pcs[t].WantExit? || s.pcs[t].ExitAll?)
  }

  ghost predicate Inv(s: State) {
    Mutex(s) && Roles(s) && Exits(s) && NoLostWakeup(s) && Fifo(s) && Shutdown(s) && ExitComing(s)
  }

  lemma {:induction false} HandsUpdate(pcs: seq<Pc>, t: nat, pc: Pc)
    requires t < |pcs|
    ensures Hands(pcs[t := pc]) == Hands(pcs) - Hand(pcs[t]) + Hand(pc)
  {
    if t == 0 {
      assert pcs[0 := pc][1..] == pcs[1..];
    } else {
      assert pcs[t := pc][1..] == pcs[1..][t - 1 := pc];
      HandsUpdate(pcs[1..], t - 1, pc);
    }
  }

  /** Inside the mutex a thread changes its own counter and may wake waiters; it holds the
      mutex until it leaves. */
  lemma CriticalFrame(s: State, t: nat, w: nat)
    requires s.owner == t && Enabled(s, Inside(t, w))
    ensures var n := Critical(s, t, w);
            && |n.pcs| == |s.pcs| && n.workers == s.workers
            && (forall u :: 0 <= u < |s.pcs| && u != t ==>
                  n.pcs[u] == s.pcs[u] || (s.pcs[u].Waiting? && n.pcs[u].Notified?))
            && n.owner == if Holds(n.pcs[t]) then t else -1
  {
    if Pushing(s.pcs[t]) {
      hide PopStep, ExitStep;
    } else if s.pcs[t].ExitAll? {
      hide PushStep, PopStep;
    } else {
      hide PushStep, ExitStep;
    }
  }

  lemma MutexInside(s: State, t: nat, w: nat)
    requires Mutex(s) && Enabled(s, Inside(t, w))
    ensures Mutex(Critical(s, t, w))
  {
    CriticalFrame(s, t, w);
    hide Critical;
  }

  lemma MutexStep(s: State, e: Step)
    requires Mutex(s) && Enabled(s, e)
    ensures Mutex(Next(s, e))
  {
    if e.Inside? {
      MutexInside(s, e.t, e.w);
    }
    hide Critical;
  }

  lemma OwnPc(s: State, t: nat, w: nat)
    requires Enabled(s, Inside(t, w))
    ensures var pc, n := s.pcs[t], Critical(s, t, w);
            && |n.latePops| == |s.latePops| && |n.pcs| == |s.pcs|
            && (t < s.workers && WorkerPc(pc) ==> WorkerPc(n.pcs[t]))
            && (t >= s.workers ==> !n.pcs[t].Top? && !n.pcs[t].Running? && !n.pcs[t].Done?)
  {
    if Pushing(s.pcs[t]) {
      hide PopStep, ExitStep;
    } else if s.pcs[t].ExitAll? {
      hide PushStep, PopStep;
    } else {
      hide PushStep, ExitStep;
    }
  }

  lemma RolesInside(s: State, t: nat, w: nat)
    requires Roles(s) && Mutex(s) && Enabled(s, Inside(t, w))
    ensures Roles(Critical(s, t, w))
  {
    CriticalFrame(s, t, w);
    OwnPc(s, t, w);
    hide Critical;
  }

  lemma RolesStep(s: State, e: Step)
    requires Roles(s) && Mutex(s) && Enabled(s, e)
    ensures Roles(Next(s, e))
  {
    if e.Inside? {
      RolesInside(s, e.t, e.w);
    }
    hide Critical;
  }

  /** What a step inside the mutex does to the two exit flags and, for a thread about to
      block, to the items. */
  lemma ExitFrame(s: State, t: nat, w: nat)
    requires Enabled(s, Inside(t, w))
    ensures var n := Critical(s, t, w);
            && n.exiting == s.exiting && (n.exitDone <==> s.exitDone || s.pcs[t].ExitAll?)
            && (n.pcs[t].WantExit? || n.pcs[t].ExitAll? ==> false)
            && !n.pcs[t].Done?
            && (n.pcs[t].PopBlock? ==> n.items == [] && !s.exiting)
            && (n.pcs[t].Waiting? ==> s.pcs[t].PopBlock?)
  {
    if Pushing(s.pcs[t]) {
      hide PopStep, ExitStep;
    } else if s.pcs[t].ExitAll? {
      hide PushStep, PopStep;
    } else {
      hide PushStep, ExitStep;
    }
  }

  lemma ExitWakes(s: State, t: nat, w: nat)
    requires Enabled(s, Inside(t, w)) && s.pcs[t].ExitAll?
    ensures forall u :: 0 <= u < |s.pcs| ==> !Critical(s, t, w).pcs[u].Waiting?
  {
    hide PushStep, PopStep;
  }

  lemma ExitsInside(s: State, t: nat, w: nat)
    requires Exits(s) && Mutex(s) && Enabled(s, Inside(t, w))
    ensures Exits(Critical(s, t, w))
  {
    ExitFrame(s, t, w);
    CriticalFrame(s, t, w);
    if s.pcs[t].ExitAll? {
      ExitWakes(s, t, w);
    }
    hide Critical;
  }

  lemma ExitsStep(s: State, e: Step)
    requires Exits(s) && Mutex(s) && Enabled(s, e)
    ensures Exits(Next(s, e))
  {
    if e.Inside? {
      ExitsInside(s, e.t, e.w);
    }
    hide Critical;
  }

  lemma ComingInside(s: State, t: nat, w: nat)
    requires ExitComing(s) && Mutex(s) && Enabled(s, Inside(t, w))
    ensures ExitComing(Critical(s, t, w))
  {
    ExitFrame(s, t, w);
    CriticalFrame(s, t, w);
    hide Critical;
    var n := Critical(s, t, w);
    if n.exiting && !n.exitDone {
      var u :| 0 <= u < |s.pcs| && (s.pcs[u].WantExit? || s.pcs[u].ExitAll?);
      assert u != t && n.pcs[u] == s.pcs[u];
    }
  }

  lemma ComingStep(s: State, e: Step)
    requires ExitComing(s) && Mutex(s) && Enabled(s, e)
    ensures ExitComing(Next(s, e))
  {
    hide Critical;
    var n := Next(s, e);
    if e.Inside? {
      ComingInside(s, e.t, e.w);
    } else if e.StartExit? {
      assert n.pcs[e.t].WantExit?;
    } else if s.exiting && !s.exitDone {
      var u :| 0 <= u < |s.pcs| && (s.pcs[u].WantExit? || s.pcs[u].ExitAll?);
      assert n.pcs[u].WantExit? || n.pcs[u].ExitAll?;
    }
  }

  lemma FifoInside(s: State, t: nat, w: nat)
    requires Fifo(s) && Enabled(s, Inside(t, w))
    ensures Fifo(Critical(s, t, w))
  {
  }

  lemma FifoStep(s: State, e: Step)
    requires Fifo(s) && Enabled(s, e)
    ensures Fifo(Next(s, e))
  {
    if e.Inside? {
      FifoInside(s, e.t, e.w);
    }
    hide Critical;
  }

  lemma ShutdownInside(s: State, t: nat, w: nat)
    requires Shutdown(s) && Roles(s) && Mutex(s) && Enabled(s, Inside(t, w))
    ensures Shutdown(Critical(s, t, w))
  {
    if Pushing(s.pcs[t]) {
      hide PopStep, ExitStep, Roles;
    } else if s.pcs[t].ExitAll? {
      hide PushStep, PopStep, Roles;
    } else {
      hide PushStep, ExitStep;
    }
  }

  lemma ShutdownStep(s: State, e: Step)
    requires Shutdown(s) && Roles(s) && Mutex(s) && Enabled(s, e)
    ensures Shutdown(Next(s, e))
  {
    if e.Inside? {
      ShutdownInside(s, e.t, e.w);
    }
    hide Critical;
  }

  lemma WakeupNotify(s: State, t: nat, w: nat)
    requires Enabled(s, Inside(t, w)) && s.pcs[t].PushNotify?
    requires NoLostWakeup(s)
    ensures NoLostWakeup(Critical(s, t, w))
  {
    var n := Critical(s, t, w);
    if SomeWaiting(s.pcs) {
      HandsUpdate(s.pcs, w, Notified);
      HandsUpdate(s.pcs[w := Notified], t, n.pcs[t]);
    } else {
      assert forall u :: 0 <= u < |n.pcs| && u != t ==> n.pcs[u] == s.pcs[u];
    }
  }

  lemma WakeupInside(s: State, t: nat, w: nat)
    requires NoLostWakeup(s) && Mutex(s) && Exits(s) && Enabled(s, Inside(t, w))
    ensures NoLostWakeup(Critical(s, t, w))
  {
    hide Mutex;
    if s.pcs[t].PushNotify? {
      WakeupNotify(s, t, w);
      hide Critical;
    } else if !s.pcs[t].ExitAll? {
      HandsUpdate(s.pcs, t, Critical(s, t, w).pcs[t]);
      hide Hands;
    }
  }

  lemma WakeupStep(s: State, e: Step)
    requires NoLostWakeup(s) && Mutex(s) && Exits(s) && Enabled(s, e)
    ensures NoLostWakeup(Next(s, e))
  {
    if e.Inside? {
      WakeupInside(s, e.t, e.w);
    } else {
      HandsUpdate(s.pcs, e.t, Next(s, e).pcs[e.t]);
    }
    hide Critical;
  }
}
