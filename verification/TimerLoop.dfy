/** What one handleTimeout fires, in which order, and how long the next poll may sleep. */
module TimerLoop {
  import opened TimerIds
  import opened MapSums
  import opened Timers

  // ----- exactness when the callbacks leave the timers alone -----

  /** The deadlines at which the repeating timer r fired, in order. */
  ghost function Deadlines(log: seq<Firing>, r: TimerId): seq<int>
    decreases |log|
  {
    if log == [] then []
    else
      var last := log[|log| - 1];
      Deadlines(log[..|log| - 1], r) + if last.closure == Repeat(r) then [last.key.first] else []
  }

  /** at, at + i, ..., n values. */
  ghost function Progression(at: int, i: int, n: nat): seq<int>
    decreases n
  {
    if n == 0 then [] else [at] + Progression(at + i, i, n - 1)
  }

  /** floor((now - at) / i) + 1 for a deadline that has passed. */
  function DueCount(at: int, i: int, now: int): nat
    requires i > 0
  {
    if at > now then 0 else (now - at) / i + 1
  }

  lemma FireNumbers(s: Sched, clock: Clock)
    requires Inv(s) && s.timers != map[]
    ensures var k, t := MinKey(s.timers.Keys), Fire(s, clock);
            && s.num <= t.num
            && t.fired == s.fired + [Firing(k, s.timers[k])]
            && t.armed == s.armed && t.cancelled == s.cancelled && t.cleared == s.cleared
  {
    hide History, TimeoutSeen, IsMin;
  }

  lemma {:induction false} QuietNumbers(s: Sched, now: int, clock: Clock)
    requires Inv(s)
    ensures var t := Fires(s, now, [], clock);
            && Inv(t) && !Due(t, now) && s.num <= t.num
            && t.armed == s.armed && t.cancelled == s.cancelled && t.cleared == s.cleared
            && |t.fired| + Outstanding(t, now) == |s.fired| + Outstanding(s, now)
    decreases Outstanding(s, now)
  {
    hide TwoMaps, Entries, History, TimeoutSeen;
    if Due(s, now) {
      FireDecreases(s, now, clock);
      FireNumbers(s, clock);
      hide Fire;
      QuietNumbers(Fire(s, clock), now, clock);
    }
  }

  lemma NotDueMeansLater(s: Sched, now: int)
    requires Inv(s) && !Due(s, now) && s.num < TWO62
    ensures forall k :: k in s.timers ==> k.first > now
  {
  }

  /** The loop leaves no deadline at or before now, and fires as often as was outstanding. */
  lemma QuietFiresAllDue(s: Sched, now: int, clock: Clock)
    requires Inv(s) && Fires(s, now, [], clock).num < TWO62
    ensures var t := Fires(s, now, [], clock);
            && Inv(t)
            && (forall k :: k in t.timers ==> k.first > now)
            && |t.fired| == |s.fired| + Outstanding(s, now)
  {
    var t := Fires(s, now, [], clock);
    QuietNumbers(s, now, clock);
    NotDueMeansLater(t, now);
    hide TwoMaps, Entries, History, TimeoutSeen, Fires;
    assert forall k :: k in t.timers ==> Owes(t, now)[k] == 0;
    AllZero(Owes(t, now));
  }

  lemma {:induction false} AllZero(w: map<TimerId, nat>)
    requires forall k :: k in w ==> w[k] == 0
    ensures Sum(w) == 0
    decreases |w|
  {
    if w != map[] {
      var k :| k in w;
      SumRemove(w, k);
      AllZero(w - {k});
    }
  }

  /** One firing seen from the entry r. */
  lemma FireSeenFrom(s: Sched, r: TimerId, clock: Clock)
    requires Inv(s) && s.timers != map[] && r in s.repeats
    ensures var k, t, tr := MinKey(s.timers.Keys), Fire(s, clock), s.repeats[r];
            && r in t.repeats && t.repeats[r].interval == tr.interval > 0 && t.repeats[r].task == tr.task
            && tr.tid in s.timers && tr.tid.first == tr.at
            && if s.timers[k] == Repeat(r)
               then k.first == tr.at && t.repeats[r].at == tr.at + tr.interval
               else t.repeats[r] == tr
  {
    hide History, TimeoutSeen;
  }

  function Advance(at: int, i: int, n: nat): int { at + n * i }

  lemma DueStep(at: int, i: int, now: int)
    requires i > 0 && at <= now
    ensures var n, m := DueCount(at, i, now), DueCount(at + i, i, now);
            && n == m + 1
            && Advance(at, i, n) == Advance(at + i, i, m)
            && Progression(at, i, n) == [at] + Progression(at + i, i, m)
  {
    PaidOnce(at, i, now);
    var m := DueCount(at + i, i, now);
    assert (m + 1) * i == m * i + i;
  }

  /** The deadlines still to come, behind those already fired. */
  ghost function Schedule(s: Sched, r: TimerId, now: int): seq<int>
    requires r in s.repeats && s.repeats[r].interval > 0
  {
    var tr := s.repeats[r];
    Deadlines(s.fired, r) + Progression(tr.at, tr.interval, DueCount(tr.at, tr.interval, now))
  }

  /** The deadline of r once nothing is due any more. */
  function Settled(s: Sched, r: TimerId, now: int): int
    requires r in s.repeats && s.repeats[r].interval > 0
  {
    var tr := s.repeats[r];
    Advance(tr.at, tr.interval, DueCount(tr.at, tr.interval, now))
  }

  /** One firing, of r or of another timer, changes neither. */
  lemma FireKeepsSchedule(s: Sched, r: TimerId, now: int, clock: Clock)
    requires Inv(s) && Due(s, now) && r in s.repeats
    ensures var t := Fire(s, clock);
            && r in t.repeats && s.repeats[r].interval == t.repeats[r].interval > 0
            && t.repeats[r].task == s.repeats[r].task
            && Schedule(t, r, now) == Schedule(s, r, now)
            && Settled(t, r, now) == Settled(s, r, now)
  {
    hide TwoMaps, Entries, History, TimeoutSeen, DueCount, Progression, Advance, Fire, IsMin;
    FireNumbers(s, clock);
    FireSeenFrom(s, r, clock);
    var k, t, tr := MinKey(s.timers.Keys), Fire(s, clock), s.repeats[r];
    assert t.fired[..|t.fired| - 1] == s.fired;
    if s.timers[k] == Repeat(r) {
      DueStep(tr.at, tr.interval, now);
      assert Deadlines(t.fired, r) == Deadlines(s.fired, r) + [tr.at];
    } else {
      assert Deadlines(t.fired, r) == Deadlines(s.fired, r) + [];
    }
  }

  /** A due repeating timer fires at exactly its deadlines up to now, once each. */
  lemma {:induction false} RepeatExact(s: Sched, r: TimerId, now: int, clock: Clock)
    requires Inv(s) && r in s.repeats
    ensures s.repeats[r].interval > 0
    ensures var tr, t := s.repeats[r], Fires(s, now, [], clock);
            var n := DueCount(tr.at, tr.interval, now);
            t.num < TWO62 ==>
            && r in t.repeats
            && t.repeats[r].at == Advance(tr.at, tr.interval, n)
            && t.repeats[r].interval == tr.interval && t.repeats[r].task == tr.task
            && Deadlines(t.fired, r) == Deadlines(s.fired, r) + Progression(tr.at, tr.interval, n)
    decreases Outstanding(s, now)
  {
    hide TwoMaps, Entries, History, TimeoutSeen, DueCount, Progression, Advance, Fire, Outstanding, Deadlines, IsMin;
    EntryTimer(s, r);
    if !Due(s, now) {
      if s.num < TWO62 {
        NotDueMeansLater(s, now);
      }
      NothingDue(s.repeats[r].at, s.repeats[r].interval, now);
    } else {
      FireDecreases(s, now, clock);
      FireKeepsSchedule(s, r, now, clock);
      RepeatExact(Fire(s, clock), r, now, clock);
    }
  }

  lemma NothingDue(at: int, i: int, now: int)
    requires i > 0
    ensures at > now ==> DueCount(at, i, now) == 0
    ensures Progression(at, i, 0) == [] && Advance(at, i, 0) == at
  {
  }

  lemma EntryTimer(s: Sched, r: TimerId)
    requires Inv(s) && r in s.repeats
    ensures s.repeats[r].tid in s.timers && s.repeats[r].tid.first == s.repeats[r].at
    ensures s.repeats[r].interval > 0
  {
  }

  /** A one-shot fires if and only if its deadline has passed, and otherwise stays. */
  lemma OneShotExact(s: Sched, id: TimerId, now: int, clock: Clock)
    requires Inv(s) && id in s.timers && s.timers[id].OneShot?
    requires Fires(s, now, [], clock).num < TWO62
    ensures var t := Fires(s, now, [], clock);
            && !WasFired(s, id)
            && (WasFired(t, id) <==> id.first <= now)
            && (id in t.timers <==> id.first > now)
            && (id in t.timers ==> t.timers[id] == s.timers[id])
  {
    QuietNumbers(s, now, clock);
    NotDueMeansLater(Fires(s, now, [], clock), now);
    if id.first > now {
      OneShotStays(s, id, now, clock);
    }
    hide TwoMaps, TimeoutSeen, Fires, Due, WasFired;
  }

  lemma FireKeepsOneShot(s: Sched, id: TimerId, clock: Clock)
    requires Inv(s) && id in s.timers && s.timers[id].OneShot? && id != MinKey(s.timers.Keys)
    ensures id in Fire(s, clock).timers && Fire(s, clock).timers[id] == s.timers[id]
  {
    hide TwoMaps, Entries, History, TimeoutSeen, IsMin;
    match s.timers[MinKey(s.timers.Keys)]
    case OneShot(_) =>
    case Repeat(r) => FireKeepsOthers(s, r, id, clock); hide Fire;
  }

  lemma {:induction false} OneShotStays(s: Sched, id: TimerId, now: int, clock: Clock)
    requires Inv(s) && id in s.timers && s.timers[id].OneShot? && id.first > now
    ensures var t := Fires(s, now, [], clock); id in t.timers && t.timers[id] == s.timers[id]
    decreases Outstanding(s, now)
  {
    hide TwoMaps, Entries, History, TimeoutSeen, IsMin, Fire, Outstanding;
    if Due(s, now) {
      FireDecreases(s, now, clock);
      FireKeepsOneShot(s, id, clock);
      OneShotStays(Fire(s, clock), id, now, clock);
    }
  }

  // ----- firing order, with callbacks that re-arm, add and cancel -----

  predicate NoEarlier(cs: seq<Call>, deadline: int) {
    forall i :: 0 <= i < |cs| && cs[i].RunAt? ==> cs[i].waitUs >= deadline
  }

  /** No callback schedules anything before the deadline it was fired for. */
  ghost predicate Forward(s: Sched, now: int, scripts: seq<seq<Call>>, clock: Clock)
    requires Inv(s)
    decreases |scripts|
  {
    scripts == [] || !Due(s, now) ||
    (FireKeepsInv(s, clock);
     CallsKeepInv(Fire(s, clock), scripts[0], clock);
     && NoEarlier(scripts[0], MinKey(s.timers.Keys).first)
     && Forward(DoCalls(Fire(s, clock), scripts[0], clock), now, scripts[1..], clock))
  }

  ghost predicate AllAfter(s: Sched, k: TimerId) {
    k.second <= s.num && forall j :: j in s.timers ==> Less(k, j)
  }

  ghost predicate Increasing(log: seq<Firing>, from: nat) {
    forall i, j :: from <= i < j < |log| ==> Less(log[i].key, log[j].key)
  }

  lemma FireAllAfter(s: Sched, clock: Clock)
    requires Inv(s) && s.timers != map[]
    ensures AllAfter(Fire(s, clock), MinKey(s.timers.Keys))
  {
  }

  lemma CallAllAfter(s: Sched, c: Call, k: TimerId, clock: Clock)
    requires AllAfter(s, k) && (c.RunAt? ==> c.waitUs >= k.first)
    ensures AllAfter(DoCall(s, c, clock), k) && DoCall(s, c, clock).fired == s.fired
  {
  }

  lemma {:induction false} CallsAllAfter(s: Sched, cs: seq<Call>, k: TimerId, clock: Clock)
    requires AllAfter(s, k) && NoEarlier(cs, k.first)
    ensures AllAfter(DoCalls(s, cs, clock), k) && DoCalls(s, cs, clock).fired == s.fired
    decreases |cs|
  {
    if cs != [] {
      CallAllAfter(s, cs[0], k, clock);
      hide DoCall, AllAfter;
      CallsAllAfter(DoCall(s, cs[0], clock), cs[1..], k, clock);
    }
  }

  /** The keys fired by one handleTimeout increase strictly in (deadline, sequence). */
  lemma {:induction false} FiringOrder(s: Sched, now: int, scripts: seq<seq<Call>>, clock: Clock)
    requires Inv(s) && Forward(s, now, scripts, clock)
    ensures s.fired <= Fires(s, now, scripts, clock).fired
    ensures Increasing(Fires(s, now, scripts, clock).fired, |s.fired|)
    ensures forall i :: |s.fired| <= i < |Fires(s, now, scripts, clock).fired| && s.timers != map[] ==>
              var k, f := MinKey(s.timers.Keys), Fires(s, now, scripts, clock).fired[i].key; k == f || Less(k, f)
    decreases |scripts|, Outstanding(s, now)
  {
    hide TwoMaps, Entries, History, TimeoutSeen;
    if Due(s, now) {
      var k, s1 := MinKey(s.timers.Keys), Fire(s, clock);
      FireKeepsInv(s, clock);
      FireNumbers(s, clock);
      FireAllAfter(s, clock);
      var s2: Sched, rest: seq<seq<Call>>;
      if scripts == [] {
        FireDecreases(s, now, clock);
        s2, rest := s1, [];
      } else {
        CallsKeepInv(s1, scripts[0], clock);
        CallsAllAfter(s1, scripts[0], k, clock);
        s2, rest := DoCalls(s1, scripts[0], clock), scripts[1..];
      }
      hide Fire, Inv, Outstanding, DoCalls;
      FiringOrder(s2, now, rest, clock);
    }
  }

  // ----- how long the poll may sleep -----

  /** A gap between deadline and clock that narrowing to 32 bits turns into no longer a sleep:
      at most 2^31 ms overdue, or overdue by luck. */
  predicate FitsInt(gap: int) {
    gap >= -TWO31 || gap % TWO32 == 0 || gap % TWO32 >= TWO31
  }

  lemma NarrowKeeps(gap: int)
    ensures Clamp(Narrow32(gap)) <= Clamp(gap) <==> FitsInt(gap)
  {
  }

  /** With timers armed, the poll timeout never reaches past the earliest deadline, measured
      from the last refresh. */
  lemma NeverOversleeps(s: Sched)
    requires Inv(s) && s.timers != map[] && FitsInt(s.seenMin - s.seenAt)
    ensures 0 <= s.next <= Clamp(MinKey(s.timers.Keys).first - s.seenAt)
  {
    hide TwoMaps, Entries, History;
    NarrowKeeps(s.seenMin - s.seenAt);
    hide FitsInt, Narrow32;
  }

  /** In every state of every run, exactly when the timeout in force reaches past the deadline
      it was computed from. */
  lemma OversleepsExactly(s: Sched)
    requires Inv(s) && s.timers != map[]
    ensures s.next <= Clamp(s.seenMin - s.seenAt) <==> FitsInt(s.seenMin - s.seenAt)
  {
    hide TwoMaps, Entries, History;
    NarrowKeeps(s.seenMin - s.seenAt);
    hide FitsInt, Narrow32;
  }

  /** And exactly when a refresh sets a timeout past the earliest deadline armed. */
  lemma RefreshOversleepsExactly(s: Sched, clock: Clock)
    requires s.timers != map[]
    ensures var gap := MinKey(s.timers.Keys).first - clock(s.ticks);
            Refresh(s, clock).next <= Clamp(gap) <==> FitsInt(gap)
  {
    NarrowKeeps(MinKey(s.timers.Keys).first - clock(s.ticks));
    hide FitsInt, Narrow32;
  }

  /** The timeout is the time from the last clock reading to the earliest deadline, none if that
      has passed, and 2^30 with no timer armed; only a gap that an int cannot hold is read
      modulo 2^32. */
  ghost predicate PollsExactly(s: Sched, clock: Clock) {
    if s.timers == map[] then s.next == 0x4000_0000
    else
      && s.ticks > 0 && s.seenAt == clock(s.ticks - 1)
      && s.seenMin == MinKey(s.timers.Keys).first
      && var gap := s.seenMin - s.seenAt;
         && (-TWO31 <= gap < TWO31 ==> s.next == if gap < 0 then 0 else gap)
         && exists n :: -TWO31 <= n < TWO31 && n % TWO32 == gap % TWO32 && s.next == Clamp(n)
  }

  lemma NarrowExact(gap: int)
    ensures Narrow32(gap) % TWO32 == gap % TWO32
    ensures -TWO31 <= gap < TWO31 ==> Narrow32(gap) == gap
  {
  }

  lemma RefreshExact(s: Sched, clock: Clock)
    ensures PollsExactly(Refresh(s, clock), clock)
    ensures var t := Refresh(s, clock);
            && t.timers == s.timers && t.repeats == s.repeats && t.num == s.num && t.fired == s.fired
            && t.exiting == s.exiting
            && t.ticks == s.ticks + if s.timers == map[] then 0 else 1
  {
    if s.timers != map[] {
      NarrowExact(MinKey(s.timers.Keys).first - clock(s.ticks));
    }
    hide Narrow32, IsMin;
  }

  /** After runAt the next poll sleeps exactly until the earliest deadline. */
  lemma RunAtPollsExactly(s: Sched, waitUs: int, task: Task, interval: int, clock: Clock)
    requires !s.exiting
    ensures PollsExactly(DoRunAt(s, waitUs, task, interval, clock), clock)
  {
    hide PollsExactly, Refresh;
    var id := ArmedId(s, waitUs, interval);
    RefreshExact(PutRepeat(s, id, Repeating(waitUs, interval, TimerId(waitUs, s.num + 2), task)), clock);
    RefreshExact(PutOneShot(s, id, task), clock);
  }

  /** So it does when a repeating timer has been re-armed, before its callback runs. */
  lemma FirePollsExactly(s: Sched, clock: Clock)
    requires Inv(s) && s.timers != map[] && s.timers[MinKey(s.timers.Keys)].Repeat?
    ensures PollsExactly(Fire(s, clock), clock)
  {
    hide TwoMaps, Entries, History, TimeoutSeen, PollsExactly, Refresh, IsMin;
    var r := s.timers[MinKey(s.timers.Keys)].rid;
    EntryOf(s, MinKey(s.timers.Keys), r);
    var tr, p := s.repeats[r], Pop(s);
    var at := tr.at + tr.interval;
    RefreshExact(PutRepeat(p, r, Repeating(at, tr.interval, TimerId(at, p.num + 1), tr.task)), clock);
  }

  /** A first timer armed 2^32 - k ms after its deadline makes the poll wait for k ms, though it
      is due. */
  lemma OverduePollWaits(waitUs: nat, task: Task, k: nat, clock: Clock)
    requires 0 < k < TWO31 && clock(0) == waitUs + TWO32 - k
    ensures Legal(Fresh, RunAt(waitUs, task, 0))
    ensures var s := DoRunAt(Fresh, waitUs, task, 0, clock);
            && s.timers == map[TimerId(waitUs, 1) := OneShot(task)] && Due(s, clock(0))
            && s.next == k > Clamp(waitUs - clock(0)) == 0
  {
    var s := DoRunAt(Fresh, waitUs, task, 0, clock);
    var id := TimerId(waitUs, 1);
    assert s.timers.Keys == {id} && MinKey({id}) == id;
    assert Narrow32(waitUs - clock(0)) == k;
  }

  // ----- runAt and cancel -----

  /** What runAt writes: one new key, one new entry for a repeating timer with the deadline, the
      interval and the task it was given, and nothing else. */
  lemma RunAtStores(s: Sched, waitUs: int, task: Task, interval: int, clock: Clock)
    requires Inv(s) && !s.exiting && Legal(s, RunAt(waitUs, task, interval))
    ensures var id, t := ArmedId(s, waitUs, interval), DoRunAt(s, waitUs, task, interval, clock);
            && id !in s.repeats && id !in s.timers && id !in s.armed
            && t.exiting == s.exiting && t.fired == s.fired
            && if interval == 0 then
                 && id.first == waitUs && s.num < id.second <= t.num
                 && t.timers == s.timers[id := OneShot(task)] && t.repeats == s.repeats
                 && t.armed == s.armed + {id}
               else
                 && id.first < 0 && id in t.repeats
                 && var tr := t.repeats[id];
                    && tr.at == tr.tid.first == waitUs && tr.interval == interval && tr.task == task
                    && tr.tid !in s.timers && s.num < tr.tid.second <= t.num && t.armed == s.armed
                    && t.timers == s.timers[tr.tid := Repeat(id)] && t.repeats == s.repeats[id := tr]
  {
    hide TwoMaps, TimeoutSeen;
  }

  /** On a loop that is exiting runAt changes nothing and returns the null id. */
  lemma RunAtRefused(s: Sched, waitUs: int, task: Task, interval: int, clock: Clock)
    requires s.exiting
    ensures DoRunAt(s, waitUs, task, interval, clock) == s && ArmedId(s, waitUs, interval) == TimerId(0, 0)
  {
  }

  /** What cancel takes away: for a repeating timer its entry and its closure, for a one-shot its
      key if it is still there; every other key and entry stays as it was. */
  lemma CancelExact(s: Sched, id: TimerId)
    requires Inv(s) && Legal(s, Cancel(id))
    ensures var t := DoCancel(s, id);
            && id !in t.repeats && (id.first >= 0 ==> id !in t.timers)
            && (forall k :: k in t.timers ==> t.timers[k] != Repeat(id))
            && t.num == s.num && t.fired == s.fired && t.exiting == s.exiting && t.next == s.next
            && (forall k :: k in t.timers ==> k in s.timers && t.timers[k] == s.timers[k])
            && (forall r :: r in t.repeats ==> r in s.repeats && t.repeats[r] == s.repeats[r])
            && (forall k :: k in s.timers && k !in t.timers <==>
                  k in s.timers && if id.first < 0 then s.timers[k] == Repeat(id) else k == id)
            && (forall r :: r in s.repeats && r !in t.repeats <==> r == id && id.first < 0)
            && (CancelResult(s, id) <==> t.timers != s.timers)
  {
    hide History, TimeoutSeen;
  }

  /** Cancelling the id that runAt returned takes back a repeating timer if and only if its
      deadline was positive, because the sign of the id tells cancel which map to search. */
  lemma CancelUndoesRepeat(s: Sched, waitUs: int, task: Task, interval: int, clock: Clock)
    requires Inv(s) && !s.exiting && interval > 0
    ensures var id, t := ArmedId(s, waitUs, interval), DoRunAt(s, waitUs, task, interval, clock);
            && id in t.repeats
            && var u := DoCancel(t, id);
            && (u.timers == s.timers && u.repeats == s.repeats <==> waitUs > 0)
            && (CancelResult(t, id) <==> waitUs > 0)
  {
    hide TwoMaps, History, TimeoutSeen;
    var t := DoRunAt(s, waitUs, task, interval, clock);
    var tid := TimerId(waitUs, s.num + 2);
    assert tid !in s.timers;
    assert t.timers == s.timers[tid := Repeat(ArmedId(s, waitUs, interval))];
  }

  lemma CancelUndoesOneShot(s: Sched, waitUs: int, task: Task, clock: Clock)
    requires Inv(s) && !s.exiting && waitUs >= 0
    ensures var id, t := ArmedId(s, waitUs, 0), DoRunAt(s, waitUs, task, 0, clock);
            && id in t.timers && CancelResult(t, id)
            && DoCancel(t, id).timers == s.timers && DoCancel(t, id).repeats == s.repeats
            && !CancelResult(DoCancel(t, id), id)
  {
    hide TwoMaps, History, TimeoutSeen;
    var id := ArmedId(s, waitUs, 0);
    assert id !in s.timers;
  }
}
