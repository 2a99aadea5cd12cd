/** handleTimeout, loop_once and loop as wholes: what fires, what the calls of handlers and
    callbacks come to, how long each poll may sleep, and how the loop ends. */
module EventLoops {
  import opened TimerIds
  import opened Timers
  import opened TimerRuns
  import opened TimerLoop

  /** handleTimeout: one clock reading, the firing loop, a refresh. */
  ghost function Timeout(s: Sched, scripts: seq<seq<Call>>, clock: Clock): Sched
    requires Inv(s)
  {
    ApplyKeepsInv(s, ReadClock, clock);
    Refresh(Fires(s.(ticks := s.ticks + 1), clock(s.ticks), scripts, clock), clock)
  }

  lemma TimeoutKeepsInv(s: Sched, scripts: seq<seq<Call>>, clock: Clock)
    requires Inv(s)
    ensures Inv(Timeout(s, scripts, clock))
  {
    hide TwoMaps, Entries, History, TimeoutSeen, Refresh;
    ApplyKeepsInv(s, ReadClock, clock);
    var t := s.(ticks := s.ticks + 1);
    var steps := FiresAreRun(t, clock(s.ticks), scripts, clock);
    RunKeepsInv(t, steps, clock);
    RefreshKeepsInv(Run(t, steps, clock), clock);
  }

  /** What the outside does during one loop_once: the calls made by the handlers the poll
      dispatches, and the calls made by each timer callback. */
  datatype Round = Round(handlers: seq<Call>, scripts: seq<seq<Call>>)

  ghost function Once(s: Sched, round: Round, clock: Clock): Sched
    requires Inv(s)
  {
    CallsKeepInv(s, round.handlers, clock);
    Timeout(DoCalls(s, round.handlers, clock), round.scripts, clock)
  }

  lemma OnceKeepsInv(s: Sched, round: Round, clock: Clock)
    requires Inv(s)
    ensures Inv(Once(s, round, clock))
  {
    CallsKeepInv(s, round.handlers, clock);
    TimeoutKeepsInv(DoCalls(s, round.handlers, clock), round.scripts, clock);
  }

  /** One loop_once after another until m_exit is set. A loop that ends has finitely many rounds; when the
      given ones run out, another thread stores m_exit before the next test. */
  ghost function Rounds(s: Sched, rounds: seq<Round>, clock: Clock): Sched
    requires Inv(s)
    decreases |rounds|
  {
    if s.exiting then s
    else if rounds == [] then s.(exiting := true)
    else
      OnceKeepsInv(s, rounds[0], clock);
      Rounds(Once(s, rounds[0], clock), rounds[1..], clock)
  }

  lemma {:induction false} RoundsKeepInv(s: Sched, rounds: seq<Round>, clock: Clock)
    requires Inv(s)
    ensures Inv(Rounds(s, rounds, clock)) && Rounds(s, rounds, clock).exiting
    decreases |rounds|
  {
    hide Inv, Once;
    if !s.exiting {
      if rounds == [] {
        CallKeepsInv(s, Exit, clock);
      } else {
        OnceKeepsInv(s, rounds[0], clock);
        RoundsKeepInv(Once(s, rounds[0], clock), rounds[1..], clock);
      }
    }
  }

  /** EventBase::loop. */
  ghost function Loop(s: Sched, rounds: seq<Round>, last: Round, clock: Clock): Sched
    requires Inv(s)
  {
    RoundsKeepInv(s, rounds, clock);
    ClearKeepsInv(Rounds(s, rounds, clock));
    Once(Clear(Rounds(s, rounds, clock)), last, clock)
  }

  /** Exit requested and both maps empty. */
  ghost predicate Spent(s: Sched) {
    s.exiting && s.timers == map[] && s.repeats == map[]
  }

  lemma {:induction false} SpentCallsArmNothing(s: Sched, cs: seq<Call>, clock: Clock)
    requires Spent(s)
    ensures Spent(DoCalls(s, cs, clock)) && DoCalls(s, cs, clock).fired == s.fired
    decreases |cs|
  {
    if cs != [] {
      SpentCallsArmNothing(DoCall(s, cs[0], clock), cs[1..], clock);
    }
  }

  /** After m_exit, whatever the last poll's handlers ask for, nothing is armed any more and
      the final loop_once(0) fires no timer. */
  lemma LoopEndsClean(s: Sched, rounds: seq<Round>, last: Round, clock: Clock)
    requires Inv(s)
    ensures Inv(Rounds(s, rounds, clock))
    ensures var t := Loop(s, rounds, last, clock);
            && Inv(t) && Spent(t)
            && t.fired == Rounds(s, rounds, clock).fired
  {
    RoundsKeepInv(s, rounds, clock);
    var u := Clear(Rounds(s, rounds, clock));
    ClearKeepsInv(Rounds(s, rounds, clock));
    OnceKeepsInv(u, last, clock);
    SpentCallsArmNothing(u, last.handlers, clock);
    hide Inv, Rounds, DoCalls;
  }

  // ----- what calls leave behind -----

  /** Nothing is forgotten on the way from s to t, and nothing is cleared. */
  ghost predicate Grown(s: Sched, t: Sched) {
    && s.num <= t.num && s.fired <= t.fired
    && s.armed <= t.armed && s.cancelled <= t.cancelled && s.cleared == t.cleared
    && (s.exiting ==> t.exiting)
  }

  lemma CallGrows(s: Sched, c: Call, clock: Clock)
    ensures Grown(s, DoCall(s, c, clock)) && DoCall(s, c, clock).fired == s.fired
    ensures c.Exit? ==> DoCall(s, c, clock).exiting
  {
    hide IsMin;
  }

  lemma {:induction false} CallsGrow(s: Sched, cs: seq<Call>, clock: Clock)
    ensures Grown(s, DoCalls(s, cs, clock)) && DoCalls(s, cs, clock).fired == s.fired
    ensures Exit in cs ==> DoCalls(s, cs, clock).exiting
    decreases |cs|
  {
    hide DoCall;
    if cs != [] {
      CallGrows(s, cs[0], clock);
      CallsGrow(DoCall(s, cs[0], clock), cs[1..], clock);
    }
  }

  lemma {:induction false} CallsMore(s: Sched, cs: seq<Call>, c: Call, clock: Clock)
    ensures DoCalls(s, cs + [c], clock) == DoCall(DoCalls(s, cs, clock), c, clock)
    decreases |cs|
  {
    hide DoCall;
    if cs == [] {
      assert cs + [c] == [c] && [c][1..] == [];
    } else {
      assert (cs + [c])[1..] == cs[1..] + [c];
      CallsMore(DoCall(s, cs[0], clock), cs[1..], c, clock);
    }
  }

  // ----- what one handleTimeout fires -----

  ghost predicate FiredBy(s: Sched, t: Sched, now: int) {
    s.fired <= t.fired && forall i :: |s.fired| <= i < |t.fired| ==> t.fired[i].key.first <= now
  }

  lemma FireGrows(s: Sched, now: int, clock: Clock)
    requires Inv(s) && Due(s, now)
    ensures Grown(s, Fire(s, clock)) && FiredBy(s, Fire(s, clock), now)
    ensures Fire(s, clock).exiting == s.exiting
  {
    hide TwoMaps, Entries, History, TimeoutSeen;
    FireNumbers(s, clock);
    match s.timers[MinKey(s.timers.Keys)]
    case OneShot(_) =>
    case Repeat(r) => hide IsMin;
  }

  /** The loop of handleTimeout, with any callbacks, ends with nothing due, and every key it
      fires is at or before now. */
  lemma {:induction false} FiresEnd(s: Sched, now: int, scripts: seq<seq<Call>>, clock: Clock)
    requires Inv(s)
    ensures var t := Fires(s, now, scripts, clock);
            Inv(t) && !Due(t, now) && Grown(s, t) && FiredBy(s, t, now)
    decreases |scripts|, Outstanding(s, now)
  {
    hide TwoMaps, Entries, History, TimeoutSeen, Fire, DoCalls, Outstanding;
    if Due(s, now) {
      FireDecreases(s, now, clock);
      FireGrows(s, now, clock);
      var s1 := Fire(s, clock);
      if scripts == [] {
        FiresEnd(s1, now, [], clock);
      } else {
        CallsKeepInv(s1, scripts[0], clock);
        CallsGrow(s1, scripts[0], clock);
        FiresEnd(DoCalls(s1, scripts[0], clock), now, scripts[1..], clock);
      }
    }
  }

  /** handleTimeout with any callbacks: nothing at or before the clock reading is left, nothing
      after it has fired, and the next poll sleeps exactly until the earliest deadline left. */
  lemma TimeoutExact(s: Sched, scripts: seq<seq<Call>>, clock: Clock)
    requires Inv(s)
    ensures var t, now := Timeout(s, scripts, clock), clock(s.ticks);
            && Inv(t) && Grown(s, t) && FiredBy(s, t, now)
            && (t.num < TWO62 ==> forall k :: k in t.timers ==> k.first > now)
            && PollsExactly(t, clock)
  {
    hide TwoMaps, Entries, History, TimeoutSeen, Refresh, PollsExactly, Due;
    TimeoutKeepsInv(s, scripts, clock);
    ApplyKeepsInv(s, ReadClock, clock);
    var s1, now := s.(ticks := s.ticks + 1), clock(s.ticks);
    var u := Fires(s1, now, scripts, clock);
    FiresEnd(s1, now, scripts, clock);
    RefreshExact(u, clock);
    RefreshGrows(u, clock);
    if u.num < TWO62 {
      NotDueMeansLater(u, now);
    }
  }

  lemma RefreshGrows(s: Sched, clock: Clock)
    ensures var t := Refresh(s, clock);
            && t.num == s.num && t.fired == s.fired && t.armed == s.armed && t.cancelled == s.cancelled
            && t.cleared == s.cleared && t.exiting == s.exiting
            && t.timers == s.timers && t.repeats == s.repeats
  {
    hide IsMin;
  }

  /** A one-shot armed before handleTimeout, whatever the callbacks do: if it is due it has fired
      unless one of them cancelled it, and if not it has not fired. */
  lemma TimeoutOneShot(s: Sched, id: TimerId, scripts: seq<seq<Call>>, clock: Clock)
    requires Inv(s) && id in s.timers && s.timers[id].OneShot?
    requires Timeout(s, scripts, clock).num < TWO62
    ensures var t, now := Timeout(s, scripts, clock), clock(s.ticks);
            && (id.first <= now ==> id !in t.timers && (WasFired(t, id) || id in t.cancelled))
            && (id.first > now ==> !WasFired(t, id) && (id in t.timers || id in t.cancelled))
  {
    hide TwoMaps, TimeoutSeen, Timeout, PollsExactly;
    TimeoutExact(s, scripts, clock);
    var t, now := Timeout(s, scripts, clock), clock(s.ticks);
    assert !WasFired(s, id) && id in t.armed && id !in t.cleared;
    assert forall i :: 0 <= i < |s.fired| ==> t.fired[i] == s.fired[i];
    assert forall i :: 0 <= i < |t.fired| && t.fired[i].key == id ==> id.first <= now;
  }

  /** A repeating timer, when the callbacks leave the timers alone. */
  lemma TimeoutRepeat(s: Sched, r: TimerId, clock: Clock)
    requires Inv(s) && r in s.repeats && s.repeats[r].interval > 0
    ensures var tr, t := s.repeats[r], Timeout(s, [], clock);
            var n := DueCount(tr.at, tr.interval, clock(s.ticks));
            t.num < TWO62 ==>
            && r in t.repeats
            && t.repeats[r].at == Advance(tr.at, tr.interval, n)
            && t.repeats[r].interval == tr.interval && t.repeats[r].task == tr.task
            && Deadlines(t.fired, r) == Deadlines(s.fired, r) + Progression(tr.at, tr.interval, n)
  {
    hide Inv, Refresh, Fires, DueCount, Advance, Deadlines, Progression;
    ApplyKeepsInv(s, ReadClock, clock);
    var s1 := s.(ticks := s.ticks + 1);
    RepeatExact(s1, r, clock(s.ticks), clock);
    RefreshGrows(Fires(s1, clock(s.ticks), [], clock), clock);
  }

  /** What a callback arms takes part in the same pass: due, it fires before handleTimeout ends,
      and otherwise it stays. */
  lemma CallbackArms(s: Sched, cs: seq<Call>, waitUs: int, task: Task, clock: Clock)
    requires Inv(s) && Due(s, clock(s.ticks)) && waitUs >= 0
    ensures var s1 := s.(ticks := s.ticks + 1);
            && Inv(s1) && s1.timers != map[]
            && var u := DoCalls(Fire(s1, clock), cs, clock);
               var id := ArmedId(u, waitUs, 0);
               var t := Timeout(s, [cs + [RunAt(waitUs, task, 0)]], clock);
               !u.exiting && t.num < TWO62 ==>
                 && (WasFired(t, id) <==> waitUs <= clock(s.ticks))
                 && (id in t.timers <==> waitUs > clock(s.ticks))
                 && (id in t.timers ==> t.timers[id] == OneShot(task))
  {
    hide TwoMaps, Entries, History, TimeoutSeen, Refresh, Fire, DoCalls, WasFired, DoRunAt;
    ApplyKeepsInv(s, ReadClock, clock);
    var s1, now := s.(ticks := s.ticks + 1), clock(s.ticks);
    var script := cs + [RunAt(waitUs, task, 0)];
    FireKeepsInv(s1, clock);
    var f := Fire(s1, clock);
    var u := DoCalls(f, cs, clock);
    CallsKeepInv(f, cs, clock);
    CallsMore(f, cs, RunAt(waitUs, task, 0), clock);
    CallsKeepInv(f, script, clock);
    var v := DoCalls(f, script, clock);
    assert [script][1..] == [];
    var w := Fires(v, now, [], clock);
    RefreshGrows(w, clock);
    if !u.exiting && w.num < TWO62 {
      ArmedThenPass(u, waitUs, task, now, clock);
      SameFired(w, Refresh(w, clock));
    }
  }

  lemma ArmedThenPass(u: Sched, waitUs: int, task: Task, now: int, clock: Clock)
    requires Inv(u) && !u.exiting && waitUs >= 0
    ensures var id, v := ArmedId(u, waitUs, 0), DoCall(u, RunAt(waitUs, task, 0), clock);
            && Inv(v)
            && var w := Fires(v, now, [], clock);
               w.num < TWO62 ==>
                 && (WasFired(w, id) <==> waitUs <= now)
                 && (id in w.timers <==> waitUs > now)
                 && (id in w.timers ==> w.timers[id] == OneShot(task))
  {
    hide TwoMaps, Entries, History, TimeoutSeen, Refresh, WasFired, DoRunAt;
    var id, v := ArmedId(u, waitUs, 0), DoCall(u, RunAt(waitUs, task, 0), clock);
    RunAtKeepsInv(u, waitUs, task, 0, clock);
    RunAtStores(u, waitUs, task, 0, clock);
    var w := Fires(v, now, [], clock);
    if w.num < TWO62 {
      OneShotExact(v, id, now, clock);
    }
  }

  // ----- the calls of the handlers -----

  /** What a handler arms during the poll is there when the timers are handled: a one-shot fires in
      the same loop_once if and only if it is due. */
  lemma HandlerArms(s: Sched, cs: seq<Call>, waitUs: int, task: Task, clock: Clock)
    requires Inv(s) && waitUs >= 0
    ensures var u := DoCalls(s, cs, clock);
            var v := DoCall(u, RunAt(waitUs, task, 0), clock);
            var id, now := ArmedId(u, waitUs, 0), clock(v.ticks);
            var t := Once(s, Round(cs + [RunAt(waitUs, task, 0)], []), clock);
            !u.exiting && t.num < TWO62 ==>
              && (WasFired(t, id) <==> waitUs <= now)
              && (id in t.timers <==> waitUs > now)
              && (id in t.timers ==> t.timers[id] == OneShot(task))
  {
    hide TwoMaps, Entries, History, TimeoutSeen, Refresh, DoCalls, WasFired, DoRunAt;
    var u := DoCalls(s, cs, clock);
    CallsKeepInv(s, cs, clock);
    CallsMore(s, cs, RunAt(waitUs, task, 0), clock);
    var v := DoCall(u, RunAt(waitUs, task, 0), clock);
    CallKeepsInv(u, RunAt(waitUs, task, 0), clock);
    ApplyKeepsInv(v, ReadClock, clock);
    var id, now, v1 := ArmedId(u, waitUs, 0), clock(v.ticks), v.(ticks := v.ticks + 1);
    var w := Fires(v1, now, [], clock);
    RefreshGrows(w, clock);
    if !u.exiting && w.num < TWO62 {
      RunAtStores(u, waitUs, task, 0, clock);
      OneShotExact(v1, id, now, clock);
      SameFired(w, Refresh(w, clock));
    }
  }

  /** A repeating timer armed by a handler has fired exactly what is due of it. */
  lemma HandlerArmsRepeat(s: Sched, cs: seq<Call>, waitUs: int, task: Task, interval: int, clock: Clock)
    requires Inv(s) && waitUs > 0 && interval > 0
    ensures var u := DoCalls(s, cs, clock);
            var v := DoCall(u, RunAt(waitUs, task, interval), clock);
            var id, n := ArmedId(u, waitUs, interval), DueCount(waitUs, interval, clock(v.ticks));
            var t := Once(s, Round(cs + [RunAt(waitUs, task, interval)], []), clock);
            !u.exiting && t.num < TWO62 ==>
              && id in t.repeats
              && t.repeats[id].at == Advance(waitUs, interval, n)
              && t.repeats[id].interval == interval && t.repeats[id].task == task
              && Deadlines(t.fired, id) == Deadlines(u.fired, id) + Progression(waitUs, interval, n)
  {
    hide TwoMaps, Entries, History, TimeoutSeen, Refresh, DoCalls, DoRunAt, DueCount, Advance, Progression, Deadlines;
    var u := DoCalls(s, cs, clock);
    CallsKeepInv(s, cs, clock);
    CallsMore(s, cs, RunAt(waitUs, task, interval), clock);
    CallKeepsInv(u, RunAt(waitUs, task, interval), clock);
    if !u.exiting {
      RunAtStores(u, waitUs, task, interval, clock);
      TimeoutRepeat(DoCall(u, RunAt(waitUs, task, interval), clock), ArmedId(u, waitUs, interval), clock);
      hide Timeout;
    }
  }

  // ----- the loop -----

  /** An exit asked for by a handler ends the loop with that round. */
  lemma LoopStopsAfterExit(s: Sched, round: Round, rest: seq<Round>, clock: Clock)
    requires Inv(s) && !s.exiting && Exit in round.handlers
    ensures Rounds(s, [round] + rest, clock) == Once(s, round, clock)
  {
    hide Inv, DoCalls;
    OnceKeepsInv(s, round, clock);
    OnceExits(s, round, clock);
    assert ([round] + rest)[1..] == rest;
  }

  lemma OnceExits(s: Sched, round: Round, clock: Clock)
    requires Inv(s) && (s.exiting || Exit in round.handlers)
    ensures Once(s, round, clock).exiting
  {
    hide Inv, DoCalls, Timeout, PollsExactly, FiredBy;
    CallsKeepInv(s, round.handlers, clock);
    CallsGrow(s, round.handlers, clock);
    TimeoutExact(DoCalls(s, round.handlers, clock), round.scripts, clock);
  }

  function Min(x: int, y: int): int { if x < y then x else y }

  /** How long each poll of the rounds may sleep. */
  ghost function RoundPolls(s: Sched, rounds: seq<Round>, clock: Clock): seq<int>
    requires Inv(s)
    decreases |rounds|
  {
    if s.exiting || rounds == [] then []
    else
      OnceKeepsInv(s, rounds[0], clock);
      [Min(1000, s.next)] + RoundPolls(Once(s, rounds[0], clock), rounds[1..], clock)
  }

  ghost function LoopPolls(s: Sched, rounds: seq<Round>, clock: Clock): seq<int>
    requires Inv(s)
  {
    RoundPolls(s, rounds, clock) + [Min(0, Rounds(s, rounds, clock).next)]
  }

  lemma {:induction false} RoundPollsBounded(s: Sched, rounds: seq<Round>, clock: Clock)
    requires Inv(s)
    ensures forall i :: 0 <= i < |RoundPolls(s, rounds, clock)| ==> 0 <= RoundPolls(s, rounds, clock)[i] <= 1000
    decreases |rounds|
  {
    hide TwoMaps, Entries, History, Once;
    if !s.exiting && rounds != [] {
      OnceKeepsInv(s, rounds[0], clock);
      RoundPollsBounded(Once(s, rounds[0], clock), rounds[1..], clock);
    }
  }

  /** Every poll of loop sleeps between 0 and 1000 ms, and the last one not at all. */
  lemma LoopPollsBounded(s: Sched, rounds: seq<Round>, clock: Clock)
    requires Inv(s)
    ensures var ps := LoopPolls(s, rounds, clock);
            && ps != [] && ps[|ps| - 1] == 0
            && forall i :: 0 <= i < |ps| ==> 0 <= ps[i] <= 1000
  {
    hide TwoMaps, Entries, History, Rounds, RoundPolls;
    RoundPollsBounded(s, rounds, clock);
    RoundsKeepInv(s, rounds, clock);
  }
}
