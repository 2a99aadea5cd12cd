/** safeCall from any thread into the loop: a push, then a byte into the wake-up pipe, against
    a loop that reads the pipe and then drains the queue. */
module Wakeup {

  type Task = nat

  /** A queued task; id is the position of its push among all accepted pushes. */
  datatype Call = Call(v: Task, id: nat)

  /** Where a thread is inside safeCall or exit. The calls that tasks and timers make on the
      loop thread are steps of a thread of their own. */
  datatype Caller =
    | Out
    | Pushed(accepted: bool, id: nat)   // between push and wakeup
    | Flagged                           // between m_exit.store and wakeup

  datatype LoopPc =
    | Test          // while(!m_exit)
    | Poll          // in epoll_wait
    | Read          // in the wake-up handler, before ::read
    | Drain         // about to pop
    | InTask
    | Timers        // in handleTimeout
    | Done          // loop() has returned

  /** accepted, returned, taken, finished, before and missed record history only: returned
      holds the calls that are complete, before those complete when the last poll was made,
      and missed whether that poll or its read was interrupted or left out the pipe. */
  datatype State = State(
    callers: seq<Caller>,
    capacity: nat,
    queue: seq<Call>,
    pipe: nat,
    exiting: bool,
    pc: LoopPc,
    last: bool,
    accepted: seq<Task>,
    returned: set<nat>,
    taken: seq<Task>,
    finished: nat,
    before: set<nat>,
    missed: bool)

  datatype Step =
    | Push(p: nat, v: Task)
    | SetExit(p: nat)
    | Write(p: nat)
    | TestExit
    | PollWake              // the poll reports the pipe
    | PollOther             // interrupted, timed out, or only other channels
    | ReadPipe
    | ReadInterrupted
    | Pop
    | Finish
    | TimersDone

  const READ_SIZE: nat := 1024

  predicate Enabled(s: State, e: Step) {
    match e
    case Push(p, _) => p < |s.callers| && s.callers[p].Out?
    case SetExit(p) => p < |s.callers| && s.callers[p].Out?
    case Write(p) => p < |s.callers| && !s.callers[p].Out?
    case TestExit => s.pc.Test?
    case PollWake => s.pc.Poll? && s.pipe > 0
    case PollOther => s.pc.Poll?
    case ReadPipe => s.pc.Read?
    case ReadInterrupted => s.pc.Read?
    case Pop => s.pc.Drain?
    case Finish => s.pc.InTask?
    case TimersDone => s.pc.Timers?
  }

  function Next(s: State, e: Step): State
    requires Enabled(s, e)
  {
    match e
    case Push(p, v) =>
      if s.capacity != 0 && |s.queue| >= s.capacity then
        s.(callers := s.callers[p := Pushed(false, 0)])
      else
        s.(callers := s.callers[p := Pushed(true, |s.accepted|)],
           queue := s.queue + [Call(v, |s.accepted|)], accepted := s.accepted + [v])
    case SetExit(p) => s.(callers := s.callers[p := Flagged], exiting := true)
    case Write(p) =>
      var c := s.callers[p];
      s.(callers := s.callers[p := Out], pipe := s.pipe + 1,
         returned := if c.Pushed? && c.accepted then s.returned + {c.id} else s.returned)
    case TestExit => s.(pc := Poll, last := s.exiting)
    case PollWake => s.(pc := Read, before := s.returned, missed := false)
    case PollOther => s.(pc := Timers, before := s.returned, missed := s.pipe > 0)
    case ReadPipe => s.(pc := Drain, pipe := if s.pipe < READ_SIZE then 0 else s.pipe - READ_SIZE)
    case ReadInterrupted => s.(pc := Timers, missed := true)
    case Pop =>
      if s.queue == [] then s.(pc := Timers)
      else s.(pc := InTask, queue := s.queue[1..], taken := s.taken + [s.queue[0].v])
    case Finish => s.(pc := Drain, finished := s.finished + 1)
    case TimersDone => s.(pc := if s.last then Done else Test)
  }

  function Run(s: State, steps: seq<Step>): State
    decreases |steps|
  {
    if steps == [] then s
    else Run(if Enabled(s, steps[0]) then Next(s, steps[0]) else s, steps[1..])
  }

  function Start(callers: nat, capacity: nat): State {
    State(seq(callers, _ => Out), capacity, [], 0, false, Test, false, [], {}, [], 0, {}, false)
  }

  predicate Draining(s: State) { s.pc.Drain? || s.pc.InTask? }

  /** Tasks are taken in the order of their pushes, each once. */
  ghost predicate Fifo(s: State) {
    && |s.accepted| == |s.taken| + |s.queue|
    && s.taken <= s.accepted
    && (forall i :: 0 <= i < |s.queue| ==>
         s.queue[i].id == |s.taken| + i && s.queue[i].v == s.accepted[|s.taken| + i])
    && |s.taken| == s.finished + if s.pc.InTask? then 1 else 0
  }

  predicate Announcing(s: State, p: nat) {
    p < |s.callers| && s.callers[p].Pushed? && s.callers[p].accepted
  }

  ghost predicate Calls(s: State) {
    && (forall id :: id in s.returned ==> id < |s.accepted|)
    && s.before <= s.returned
    && (forall p :: 0 <= p < |s.callers| && Announcing(s, p) ==>
         s.callers[p].id < |s.accepted| && s.callers[p].id !in s.returned)
    && (forall p, q :: 0 <= p < q < |s.callers| && Announcing(s, p) && Announcing(s, q) ==>
          s.callers[p].id != s.callers[q].id)
  }

  /** A call that is not complete is still between its push and its write. */
  ghost predicate Pending(s: State) {
    forall i :: 0 <= i < |s.accepted| && i !in s.returned ==> InFlight(s, i)
  }

  /** The call id is between its push and its write. */
  ghost predicate InFlight(s: State, id: nat) {
    exists p :: 0 <= p < |s.callers| && s.callers[p] == Pushed(true, id)
  }

  /** With an empty pipe and no drain going on, every queued task is still being announced. */
  ghost predicate Announced(s: State) {
    && (s.pc.Read? ==> s.pipe > 0)
    && (s.pipe == 0 && !Draining(s) ==>
          forall i :: 0 <= i < |s.queue| ==> s.queue[i].id !in s.returned)
  }

  /** After the last poll has been served, what was complete before it is no longer queued. */
  ghost predicate Served(s: State) {
    (s.pc.Timers? || s.pc.Done?) && !s.missed ==>
      forall i :: 0 <= i < |s.queue| ==> s.queue[i].id !in s.before
  }

  ghost predicate Inv(s: State) {
    Fifo(s) && Calls(s) && Pending(s) && Announced(s) && Served(s)
  }

  lemma StartInv(callers: nat, capacity: nat)
    ensures Inv(Start(callers, capacity))
  {
  }

  lemma FifoPush(s: State, e: Step)
    requires Fifo(s) && Enabled(s, e) && e.Push?
    ensures Fifo(Next(s, e))
  {
  }

  lemma FifoPop(s: State, e: Step)
    requires Fifo(s) && Enabled(s, e) && e.Pop?
    ensures Fifo(Next(s, e))
  {
    if s.queue != [] {
      var n := Next(s, e);
      assert s.queue[0].v == s.accepted[|s.taken|];
      assert forall i :: 0 <= i < |n.queue| ==> n.queue[i] == s.queue[i + 1];
    }
  }

  lemma FifoStep(s: State, e: Step)
    requires Fifo(s) && Enabled(s, e)
    ensures Fifo(Next(s, e))
  {
    if e.Push? {
      FifoPush(s, e);
      hide Next;
    } else if e.Pop? {
      FifoPop(s, e);
      hide Next;
    }
  }

  lemma CallsPush(s: State, e: Step)
    requires Calls(s) && Enabled(s, e) && e.Push?
    ensures Calls(Next(s, e))
  {
    var n := Next(s, e);
    assert forall p :: 0 <= p < |s.callers| && p != e.p ==> Announcing(n, p) == Announcing(s, p);
  }

  lemma CallsWrite(s: State, e: Step)
    requires Calls(s) && Enabled(s, e) && (e.Write? || e.SetExit?)
    ensures Calls(Next(s, e))
  {
    var n := Next(s, e);
    assert forall p :: 0 <= p < |s.callers| && p != e.p ==> Announcing(n, p) == Announcing(s, p);
  }

  lemma CallsStep(s: State, e: Step)
    requires Calls(s) && Enabled(s, e)
    ensures Calls(Next(s, e))
  {
    if e.Push? {
      CallsPush(s, e);
      hide Next;
    } else if e.Write? || e.SetExit? {
      CallsWrite(s, e);
      hide Next;
    }
  }

  lemma PendingStep(s: State, e: Step)
    requires Pending(s) && Enabled(s, e)
    ensures Pending(Next(s, e))
  {
    var n := Next(s, e);
    forall i | 0 <= i < |n.accepted| && i !in n.returned ensures InFlight(n, i) {
      if i < |s.accepted| {
        var p :| 0 <= p < |s.callers| && s.callers[p] == Pushed(true, i);
        assert n.callers[p] == s.callers[p];
      } else {
        assert n.callers[e.p] == Pushed(true, i);
      }
    }
  }

  lemma AnnouncedStep(s: State, e: Step)
    requires Announced(s) && Calls(s) && Fifo(s) && Enabled(s, e)
    ensures Announced(Next(s, e))
  {
  }

  lemma ServedStep(s: State, e: Step)
    requires Served(s) && Announced(s) && Calls(s) && Enabled(s, e)
    ensures Served(Next(s, e))
  {
  }

  lemma {:induction false} RunKeepsInv(s: State, steps: seq<Step>)
    requires Inv(s)
    ensures Inv(Run(s, steps))
    decreases |steps|
  {
    hide Enabled, Next, Fifo, Calls, Pending, Announced, Served;
    if steps != [] {
      var e := steps[0];
      if Enabled(s, e) {
        FifoStep(s, e);
        CallsStep(s, e);
        PendingStep(s, e);
        AnnouncedStep(s, e);
        ServedStep(s, e);
        RunKeepsInv(Next(s, e), steps[1..]);
      } else {
        RunKeepsInv(s, steps[1..]);
      }
    }
  }

  /** No safeCall is stranded: in every interleaving, a queued task means a byte in the pipe, a
      loop that is draining, or a caller still between its push and its write. */
  lemma NeverStranded(callers: nat, capacity: nat, steps: seq<Step>)
    ensures var s := Run(Start(callers, capacity), steps);
            forall i :: 0 <= i < |s.queue| ==>
              s.pipe > 0 || Draining(s) || InFlight(s, s.queue[i].id)
  {
    StartInv(callers, capacity);
    RunKeepsInv(Start(callers, capacity), steps);
    hide Run, Start, Served;
  }

  /** Tasks run in the order of the accepted pushes, each at most once. */
  lemma TasksInOrder(callers: nat, capacity: nat, steps: seq<Step>)
    ensures var s := Run(Start(callers, capacity), steps);
            && s.taken <= s.accepted
            && |s.accepted| == |s.taken| + |s.queue|
            && s.finished <= |s.taken| <= s.finished + 1
  {
    StartInv(callers, capacity);
    RunKeepsInv(Start(callers, capacity), steps);
    hide Run, Start, Calls, Announced, Served;
  }

  /** When loop() has returned and its last poll was not interrupted and did report a readable
      pipe, every safeCall that was complete before that poll has run to its end. */
  lemma LoopExitRunsAll(callers: nat, capacity: nat, steps: seq<Step>, id: nat)
    ensures var s := Run(Start(callers, capacity), steps);
            s.pc.Done? && !s.missed && id in s.before ==>
              && id < |s.taken| == s.finished
              && id < |s.accepted| && s.taken[id] == s.accepted[id]
  {
    StartInv(callers, capacity);
    RunKeepsInv(Start(callers, capacity), steps);
    var s := Run(Start(callers, capacity), steps);
    hide Run, Start, Announced;
    assert id in s.before ==> id < |s.accepted|;
    if |s.taken| <= id < |s.accepted| {
      assert s.queue[id - |s.taken|].id == id;
    }
  }

  predicate NoneRefused(s: State) {
    s.capacity == 0 && forall p :: 0 <= p < |s.callers| && s.callers[p].Pushed? ==> s.callers[p].accepted
  }

  lemma NoneRefusedStep(s: State, e: Step)
    requires NoneRefused(s) && Enabled(s, e)
    ensures NoneRefused(Next(s, e))
  {
  }

  /** A push is refused only by a bounded queue, so with capacity 0 every safeCall counts. */
  lemma {:induction false} NeverRefused(s: State, steps: seq<Step>)
    requires NoneRefused(s)
    ensures NoneRefused(Run(s, steps))
    decreases |steps|
  {
    hide NoneRefused, Next, Enabled;
    if steps != [] {
      if Enabled(s, steps[0]) {
        NoneRefusedStep(s, steps[0]);
        NeverRefused(Next(s, steps[0]), steps[1..]);
      } else {
        NeverRefused(s, steps[1..]);
      }
    }
  }

  lemma DoneMeansLast(callers: nat, capacity: nat, steps: seq<Step>)
    ensures var s := Run(Start(callers, capacity), steps); s.pc.Done? ==> s.last && s.exiting
  {
    LastStays(Start(callers, capacity), steps);
  }

  lemma {:induction false} LastStays(s: State, steps: seq<Step>)
    requires (s.pc.Done? ==> s.last) && (s.last ==> s.exiting)
    ensures var r := Run(s, steps); (r.pc.Done? ==> r.last) && (r.last ==> r.exiting)
    decreases |steps|
  {
    if steps != [] {
      LastStays(if Enabled(s, steps[0]) then Next(s, steps[0]) else s, steps[1..]);
    }
  }
}
