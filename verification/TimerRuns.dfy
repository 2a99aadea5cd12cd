/** Properties of whole runs of the timer scheduler. */
module TimerRuns {
  import opened TimerIds
  import opened Timers

  // ----- runs as sequences of small steps -----

  /** Everything that touches the maps: a user call (from a callback or from outside), one
      iteration of the firing loop up to the callback, a clock reading, the refresh at the end
      of handleTimeout, and the clearing at the end of loop. */
  datatype Step = Do(c: Call) | FireAt(now: int) | ReadClock | RefreshNow | ClearAll

  function Clear(s: Sched): Sched {
    s.(timers := map[], repeats := map[],
       cleared := s.cleared + set k | k in s.timers && s.timers[k].OneShot?)
  }

  ghost function Apply(s: Sched, step: Step, clock: Clock): Sched
    requires Inv(s)
  {
    match step
    case Do(c) => DoCall(s, c, clock)
    case FireAt(now) => if Due(s, now) then Fire(s, clock) else s
    case ReadClock => s.(ticks := s.ticks + 1)
    case RefreshNow => Refresh(s, clock)
    case ClearAll => Clear(s)
  }

  lemma SameFired(s: Sched, t: Sched)
    requires s.fired == t.fired
    ensures forall x :: WasFired(t, x) == WasFired(s, x)
  {
  }

  lemma ClearKeepsInv(s: Sched)
    requires Inv(s)
    ensures Inv(Clear(s))
  {
  }

  lemma ApplyKeepsInv(s: Sched, step: Step, clock: Clock)
    requires Inv(s)
    ensures Inv(Apply(s, step, clock))
  {
    match step
    case Do(c) => CallKeepsInv(s, c, clock);
    case FireAt(now) => if Due(s, now) { FireKeepsInv(s, clock); }
    case ReadClock => SameFired(s, s.(ticks := s.ticks + 1)); hide WasFired;
    case RefreshNow => RefreshKeepsInv(s, clock);
    case ClearAll => ClearKeepsInv(s);
  }

  ghost function Run(s: Sched, steps: seq<Step>, clock: Clock): Sched
    requires Inv(s)
    decreases |steps|
  {
    if steps == [] then s
    else
      ApplyKeepsInv(s, steps[0], clock);
      Run(Apply(s, steps[0], clock), steps[1..], clock)
  }

  /** The two-map invariant, the history and the poll bound hold after every run. */
  lemma {:induction false} RunKeepsInv(s: Sched, steps: seq<Step>, clock: Clock)
    requires Inv(s)
    ensures Inv(Run(s, steps, clock))
    decreases |steps|
  {
    hide Inv, Apply;
    if steps != [] {
      ApplyKeepsInv(s, steps[0], clock);
      RunKeepsInv(Apply(s, steps[0], clock), steps[1..], clock);
    }
  }

  lemma FreshInv()
    ensures Inv(Fresh)
  {
  }

  lemma {:induction false} RunConcat(s: Sched, a: seq<Step>, b: seq<Step>, clock: Clock)
    requires Inv(s)
    ensures Inv(Run(s, a, clock))
    ensures Run(s, a + b, clock) == Run(Run(s, a, clock), b, clock)
    decreases |a|
  {
    hide Inv, Apply;
    RunKeepsInv(s, a, clock);
    if a == [] {
      assert a + b == b;
    } else {
      ApplyKeepsInv(s, a[0], clock);
      RunConcat(Apply(s, a[0], clock), a[1..], b, clock);
      assert (a + b)[1..] == a[1..] + b;
    }
  }

  lemma {:induction false} CallsAreRun(s: Sched, cs: seq<Call>, clock: Clock) returns (steps: seq<Step>)
    requires Inv(s)
    ensures Run(s, steps, clock) == DoCalls(s, cs, clock)
    decreases |cs|
  {
    hide Inv;
    if cs == [] {
      steps := [];
    } else {
      CallKeepsInv(s, cs[0], clock);
      var rest := CallsAreRun(DoCall(s, cs[0], clock), cs[1..], clock);
      steps := [Do(cs[0])] + rest;
      assert steps[1..] == rest;
    }
  }

  /** The firing loop, callbacks included, is one of these runs. */
  lemma {:induction false} FiresAreRun(s: Sched, now: int, scripts: seq<seq<Call>>, clock: Clock)
    returns (steps: seq<Step>)
    requires Inv(s)
    ensures Run(s, steps, clock) == Fires(s, now, scripts, clock)
    decreases |scripts|, Outstanding(s, now)
  {
    if !Due(s, now) {
      steps := [];
    } else {
      FireKeepsInv(s, clock);
      var s1 := Fire(s, clock);
      var calls, rest: seq<Step>;
      if scripts == [] {
        FireDecreases(s, now, clock);
        calls := [];
        rest := FiresAreRun(s1, now, [], clock);
      } else {
        CallsKeepInv(s1, scripts[0], clock);
        calls := CallsAreRun(s1, scripts[0], clock);
        rest := FiresAreRun(DoCalls(s1, scripts[0], clock), now, scripts[1..], clock);
      }
      hide Inv, Fire, Due, Outstanding;
      RunConcat(s1, calls, rest, clock);
      steps := [FireAt(now)] + (calls + rest);
      assert steps[1..] == calls + rest;
    }
  }

  // ----- cancellation -----

  /** f is a firing of the timer that runAt named id. */
  predicate FiringOf(f: Firing, id: TimerId) {
    if id.first < 0 then f.closure == Repeat(id) else f.key == id
  }

  ghost predicate Dead(s: Sched, id: TimerId) {
    id.second <= s.num && if id.first < 0 then id !in s.repeats else id !in s.timers
  }

  /** The log only grows, and by no firing of id. */
  ghost predicate Spared(s: Sched, t: Sched, id: TimerId) {
    s.fired <= t.fired && forall i :: |s.fired| <= i < |t.fired| ==> !FiringOf(t.fired[i], id)
  }

  lemma CallSpares(s: Sched, c: Call, id: TimerId, clock: Clock)
    requires Inv(s) && Dead(s, id)
    ensures Dead(DoCall(s, c, clock), id) && DoCall(s, c, clock).fired == s.fired
  {
    hide Inv;
  }

  lemma FireSpares(s: Sched, id: TimerId, clock: Clock)
    requires Inv(s) && s.timers != map[] && Dead(s, id)
    ensures Dead(Fire(s, clock), id) && Spared(s, Fire(s, clock), id)
  {
    hide History, TimeoutSeen;
  }

  lemma ApplySpares(s: Sched, step: Step, id: TimerId, clock: Clock)
    requires Inv(s) && Dead(s, id)
    ensures Dead(Apply(s, step, clock), id) && Spared(s, Apply(s, step, clock), id)
  {
    match step
    case Do(c) => CallSpares(s, c, id, clock);
    case FireAt(now) => if Due(s, now) { FireSpares(s, id, clock); }
    case _ => hide Inv;
  }

  lemma {:induction false} DeadStaysDead(s: Sched, steps: seq<Step>, id: TimerId, clock: Clock)
    requires Inv(s) && Dead(s, id)
    ensures Dead(Run(s, steps, clock), id) && Spared(s, Run(s, steps, clock), id)
    decreases |steps|
  {
    hide Inv, Apply, Dead, FiringOf;
    if steps != [] {
      var t := Apply(s, steps[0], clock);
      ApplyKeepsInv(s, steps[0], clock);
      ApplySpares(s, steps[0], id, clock);
      DeadStaysDead(t, steps[1..], id, clock);
    }
  }

  /** Once cancel(id) has run, from anywhere, the timer never fires again. */
  lemma CancelIsFinal(s: Sched, id: TimerId, steps: seq<Step>, clock: Clock)
    requires Inv(s) && Legal(s, Cancel(id)) && id.second <= s.num
    ensures Inv(DoCancel(s, id))
    ensures Spared(DoCancel(s, id), Run(DoCancel(s, id), steps, clock), id)
  {
    CancelKeepsInv(s, id);
    DeadStaysDead(DoCancel(s, id), steps, id, clock);
  }

  /** For a one-shot handed out earlier in the run, cancel answers false exactly when the
      timer has fired, was cancelled or was cleared; and it has fired at most once. */
  lemma CancelTells(steps: seq<Step>, id: TimerId, clock: Clock)
    ensures Inv(Fresh)
    ensures var s := Run(Fresh, steps, clock);
            id in s.armed ==>
              && (!CancelResult(s, id) <==> WasFired(s, id) || id in s.cancelled || id in s.cleared)
              && forall i, j :: 0 <= i < j < |s.fired| && s.fired[i].key == id ==> s.fired[j].key != id
  {
    FreshInv();
    RunKeepsInv(Fresh, steps, clock);
    hide TwoMaps, Entries, TimeoutSeen, WasFired;
  }
}
