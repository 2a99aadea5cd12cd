/** How the loop that serves safeCall ends, and what its queue takes in. */
module WakeupRuns {
  import opened Wakeup

  // ----- the loop returns -----

  /** A step of the loop thread. */
  predicate OfLoop(e: Step) {
    !e.Push? && !e.SetExit? && !e.Write?
  }

  /** What the loop still has to do once m_exit is set: the rest of its round, one last round,
      and two steps for each queued task. */
  function Left(s: State): nat {
    2 * |s.queue| +
    if s.last then
      match s.pc
      case Done => 0
      case Timers => 1
      case Drain => 2
      case InTask => 3
      case Read => 3
      case Poll => 4
      case Test => 5
    else
      match s.pc
      case Done => 0
      case Test => 5
      case Timers => 6
      case Drain => 7
      case InTask => 8
      case Read => 8
      case Poll => 9
  }

  lemma StepUsesUp(s: State, e: Step)
    requires s.exiting && (s.last ==> !s.pc.Test?) && Enabled(s, e)
    ensures var n := Next(s, e);
            && n.exiting && (n.last ==> !n.pc.Test?) && (s.last ==> n.last) && (e.TestExit? ==> !s.last && n.last)
            && Left(n) + (if OfLoop(e) then 1 else 0) <= Left(s) + if e.Push? then 2 else 0
  {
  }

  /** How many steps of a kind a run takes. */
  function LoopSteps(s: State, steps: seq<Step>): nat
    decreases |steps|
  {
    if steps == [] then 0
    else if !Enabled(s, steps[0]) then LoopSteps(s, steps[1..])
    else (if OfLoop(steps[0]) then 1 else 0) + LoopSteps(Next(s, steps[0]), steps[1..])
  }

  function Pushes(s: State, steps: seq<Step>): nat
    decreases |steps|
  {
    if steps == [] then 0
    else if !Enabled(s, steps[0]) then Pushes(s, steps[1..])
    else (if steps[0].Push? then 1 else 0) + Pushes(Next(s, steps[0]), steps[1..])
  }

  function Tests(s: State, steps: seq<Step>): nat
    decreases |steps|
  {
    if steps == [] then 0
    else if !Enabled(s, steps[0]) then Tests(s, steps[1..])
    else (if steps[0].TestExit? then 1 else 0) + Tests(Next(s, steps[0]), steps[1..])
  }

  lemma {:induction false} LoopRunsOut(s: State, steps: seq<Step>)
    requires s.exiting && (s.last ==> !s.pc.Test?)
    ensures LoopSteps(s, steps) + Left(Run(s, steps)) <= Left(s) + 2 * Pushes(s, steps)
    ensures Tests(s, steps) <= if s.last then 0 else 1
    decreases |steps|
  {
    hide Left, Next, Enabled;
    if steps != [] {
      if Enabled(s, steps[0]) {
        StepUsesUp(s, steps[0]);
        LoopRunsOut(Next(s, steps[0]), steps[1..]);
      } else {
        LoopRunsOut(s, steps[1..]);
      }
    }
  }

  /** No step of the loop thread is possible. */
  ghost predicate LoopStopped(s: State) {
    forall e :: OfLoop(e) ==> !Enabled(s, e)
  }

  /** The loop never gets stuck: it has stopped if and only if loop has returned. */
  lemma StoppedMeansDone(s: State)
    ensures LoopStopped(s) <==> s.pc.Done?
  {
    if LoopStopped(s) {
      assert !Enabled(s, TestExit) && !Enabled(s, PollOther) && !Enabled(s, ReadPipe) && !Enabled(s, Pop);
      assert !Enabled(s, Finish) && !Enabled(s, TimersDone);
    }
  }

  lemma {:induction false} LastIsPastTest(s: State, steps: seq<Step>)
    requires s.last ==> s.exiting && !s.pc.Test?
    ensures var r := Run(s, steps); r.last ==> r.exiting && !r.pc.Test?
    decreases |steps|
  {
    if steps != [] {
      LastIsPastTest(if Enabled(s, steps[0]) then Next(s, steps[0]) else s, steps[1..]);
    }
  }

  /** loop returns: once m_exit is set, m_exit is tested at most once more, and the loop thread takes
      at most nine more steps and two for each task that is queued or still to be pushed; when it
      can take none, loop has returned. */
  lemma LoopReturns(callers: nat, capacity: nat, before: seq<Step>, after: seq<Step>)
    ensures var s := Run(Start(callers, capacity), before);
            s.exiting ==>
              && Tests(s, after) <= 1
              && LoopSteps(s, after) <= 9 + 2 * (|s.queue| + Pushes(s, after))
              && (LoopStopped(Run(s, after)) ==> Run(s, after).pc.Done?)
  {
    LastIsPastTest(Start(callers, capacity), before);
    var s := Run(Start(callers, capacity), before);
    hide Run, Start;
    if s.exiting {
      LoopRunsOut(s, after);
      StoppedMeansDone(Run(s, after));
    }
  }

  // ----- a run that gets there -----

  lemma RunFirst(s: State, e: Step, rest: seq<Step>)
    requires Enabled(s, e)
    ensures Run(s, [e] + rest) == Run(Next(s, e), rest)
  {
    assert ([e] + rest)[1..] == rest;
  }

  /** Where the caller leaves the loop: a task queued, m_exit set and two bytes in the pipe. */
  function Asked(v: Task): State {
    State([Out], 0, [Call(v, 0)], 2, true, Test, false, [v], {0}, [], 0, {}, false)
  }

  lemma CallerAsks(v: Task, rest: seq<Step>)
    ensures Run(Start(1, 0), [Push(0, v)] + ([Write(0)] + ([SetExit(0)] + ([Write(0)] + rest)))) == Run(Asked(v), rest)
  {
    var s0 := Start(1, 0);
    var s1 := Next(s0, Push(0, v));
    var s2 := Next(s1, Write(0));
    var s3 := Next(s2, SetExit(0));
    var t3 := [Write(0)] + rest;
    var t2 := [SetExit(0)] + t3;
    RunFirst(s0, Push(0, v), [Write(0)] + t2);
    RunFirst(s1, Write(0), t2);
    RunFirst(s2, SetExit(0), t3);
    RunFirst(s3, Write(0), rest);
    assert Next(s3, Write(0)) == Asked(v);
    hide Run;
  }

  /** One caller, one task, then exit: the loop runs the task and returns. */
  lemma LoopServesAndReturns(v: Task)
    ensures var s := Run(Start(1, 0),
              [Push(0, v)] + ([Write(0)] + ([SetExit(0)] + ([Write(0)] + ([TestExit] + ([PollWake] + ([ReadPipe]
              + ([Pop] + ([Finish] + ([Pop] + ([TimersDone] + [])))))))))));
            && s.pc.Done? && !s.missed && 0 in s.before
            && s.taken == [v] && s.finished == 1 && s.accepted == [v] && s.queue == []
  {
    hide Run;
    var t6 := [TimersDone] + [];
    var t5 := [Pop] + t6;
    var t4 := [Finish] + t5;
    var t3 := [Pop] + t4;
    var t2 := [ReadPipe] + t3;
    var t1 := [PollWake] + t2;
    CallerAsks(v, [TestExit] + t1);
    var s0 := Asked(v);
    var s1 := Next(s0, TestExit);
    var s2 := Next(s1, PollWake);
    var s3 := Next(s2, ReadPipe);
    var s4 := Next(s3, Pop);
    var s5 := Next(s4, Finish);
    var s6 := Next(s5, Pop);
    RunFirst(s0, TestExit, t1);
    RunFirst(s1, PollWake, t2);
    RunFirst(s2, ReadPipe, t3);
    RunFirst(s3, Pop, t4);
    RunFirst(s4, Finish, t5);
    RunFirst(s5, Pop, t6);
    RunFirst(s6, TimersDone, []);
    RunNothing(Next(s6, TimersDone));
  }

  lemma RunNothing(s: State)
    ensures Run(s, []) == s
  {
  }

  // ----- what is taken in -----

  /** The tasks of the safeCalls of a run, in order, and those among them that find room. */
  function Called(s: State, steps: seq<Step>): seq<Task>
    decreases |steps|
  {
    if steps == [] then []
    else if !Enabled(s, steps[0]) then Called(s, steps[1..])
    else (if steps[0].Push? then [steps[0].v] else []) + Called(Next(s, steps[0]), steps[1..])
  }

  function Admitted(s: State, steps: seq<Step>): seq<Task>
    decreases |steps|
  {
    if steps == [] then []
    else if !Enabled(s, steps[0]) then Admitted(s, steps[1..])
    else
      (if steps[0].Push? && (s.capacity == 0 || |s.queue| < s.capacity) then [steps[0].v] else [])
      + Admitted(Next(s, steps[0]), steps[1..])
  }

  lemma StepAdmits(s: State, e: Step)
    requires Enabled(s, e)
    ensures var n := Next(s, e);
            && n.capacity == s.capacity
            && n.accepted == s.accepted + (if e.Push? && (s.capacity == 0 || |s.queue| < s.capacity) then [e.v] else [])
            && (s.capacity != 0 && |s.queue| <= s.capacity ==> |n.queue| <= s.capacity)
  {
    assert s.accepted + [] == s.accepted;
  }

  /** The accepted tasks are those of the safeCalls that find room, in order; a bounded queue
      keeps to its capacity; and an unbounded one takes every safeCall. */
  lemma {:induction false} AcceptedAreCalled(s: State, steps: seq<Step>)
    requires s.capacity != 0 ==> |s.queue| <= s.capacity
    ensures var r := Run(s, steps);
            && r.accepted == s.accepted + Admitted(s, steps)
            && (s.capacity != 0 ==> |r.queue| <= s.capacity)
            && (s.capacity == 0 ==> Admitted(s, steps) == Called(s, steps))
    decreases |steps|
  {
    hide Next, Enabled;
    if steps == [] {
      assert s.accepted + [] == s.accepted;
    } else if Enabled(s, steps[0]) {
      var n := Next(s, steps[0]);
      StepAdmits(s, steps[0]);
      AcceptedAreCalled(n, steps[1..]);
      var a := if steps[0].Push? && (s.capacity == 0 || |s.queue| < s.capacity) then [steps[0].v] else [];
      assert s.accepted + a + Admitted(n, steps[1..]) == s.accepted + (a + Admitted(n, steps[1..]));
    } else {
      AcceptedAreCalled(s, steps[1..]);
    }
  }

  function Values(queue: seq<Call>): seq<Task> {
    seq(|queue|, i requires 0 <= i < |queue| => queue[i].v)
  }

  lemma FifoMeans(s: State)
    requires Fifo(s)
    ensures s.taken + Values(s.queue) == s.accepted
  {
  }

  lemma InvFifo(s: State)
    requires Wakeup.Inv(s)
    ensures Fifo(s)
  {
  }

  /** With an unbounded queue: what has been taken out so far, then what is queued, are the tasks of
      all the safeCalls of the run, in order. */
  lemma EverySafeCallQueued(callers: nat, steps: seq<Step>)
    ensures var s := Run(Start(callers, 0), steps);
            s.taken + Values(s.queue) == Called(Start(callers, 0), steps)
  {
    hide Run, Called, Admitted, Wakeup.Inv, Fifo, Values;
    AcceptedAreCalled(Start(callers, 0), steps);
    StartInv(callers, 0);
    RunKeepsInv(Start(callers, 0), steps);
    InvFifo(Run(Start(callers, 0), steps));
    FifoMeans(Run(Start(callers, 0), steps));
    assert [] + Called(Start(callers, 0), steps) == Called(Start(callers, 0), steps);
  }

  // ----- the pipe -----

  function Written(s: State, steps: seq<Step>): nat
    decreases |steps|
  {
    if steps == [] then 0
    else if !Enabled(s, steps[0]) then Written(s, steps[1..])
    else (if steps[0].Write? then 1 else 0) + Written(Next(s, steps[0]), steps[1..])
  }

  /** A read empties the pipe if it holds no more than one buffer: the loop does not wake again
      for bytes it has answered. */
  lemma ReadEmpties(s: State)
    requires Enabled(s, ReadPipe)
    ensures var n := Next(s, ReadPipe);
            && (s.pipe <= READ_SIZE <==> n.pipe == 0) && n.pipe <= s.pipe <= n.pipe + READ_SIZE
  {
  }

  lemma {:induction false} PipeHoldsWritten(s: State, steps: seq<Step>)
    ensures Run(s, steps).pipe <= s.pipe + Written(s, steps)
    decreases |steps|
  {
    if steps != [] {
      PipeHoldsWritten(if Enabled(s, steps[0]) then Next(s, steps[0]) else s, steps[1..]);
    }
  }
}
