/** The EventBase class: its timer methods and its loop, each against the transition systems
    of modules Timers and EventLoops. */
module EventBases {
  import opened TimerIds
  import opened Timers
  import opened TimerRuns
  import opened TimerLoop
  import opened EventLoops

  class EventBase {
    const clock: Clock
    var timers: map<TimerId, Closure>
    var timerRepeats: map<TimerId, Repeating>
    var timerNum: nat
    var nextTimeout: int
    var exiting: bool
    var ticks: nat
    ghost var seenMin: int
    ghost var seenAt: int
    ghost var armed: set<TimerId>
    ghost var cancelled: set<TimerId>
    ghost var cleared: set<TimerId>
    ghost var fired: seq<Firing>
    ghost var polls: seq<int>

    ghost function State(): Sched
      reads this
    {
      Sched(timers, timerRepeats, timerNum, nextTimeout, exiting, ticks,
            seenMin, seenAt, armed, cancelled, cleared, fired)
    }

    ghost predicate Valid()
      reads this
    {
      Inv(State())
    }

    constructor (clock: Clock)
      ensures Valid() && State() == Fresh && this.clock == clock && polls == []
    {
      this.clock := clock;
      timers, timerRepeats, timerNum := map[], map[], 0;
      nextTimeout, exiting, ticks := 0x4000_0000, false, 0;
      seenMin, seenAt, armed, cancelled, cleared, fired, polls := 0, 0, {}, {}, {}, [], [];
      new;
      FreshInv();
    }

    method TimeMilli() returns (now: int)
      modifies this`ticks
      ensures now == clock(old(ticks)) && ticks == old(ticks) + 1
    {
      now := clock(ticks);
      ticks := ticks + 1;
    }

    method Begin() returns (k: TimerId)
      requires timers != map[]
      ensures k == MinKey(timers.Keys) && k in timers
    {
      ghost var least := MinKey(timers.Keys);
      k :| k in timers.Keys && forall j :: j in timers.Keys && j != k ==> Less(k, j);
      assert k != least ==> Less(k, least) && Less(least, k);
    }

    method RefreshNearest()
      modifies this`nextTimeout, this`ticks, this`seenMin, this`seenAt
      ensures State() == Refresh(old(State()), clock)
    {
      if timers == map[] {
        nextTimeout := 1073741824;
      } else {
        var t := Begin();
        var now := TimeMilli();
        nextTimeout := Narrow32(t.first - now);
        if nextTimeout < 0 {
          nextTimeout := 0;
        }
        seenMin, seenAt := t.first, now;
      }
    }

    /** Writes a new entry of m_timerRepeats and the closure that points to it. */
    method ArmRepeating(waitUs: int, task: Task, interval: int) returns (id: TimerId)
      modifies this
      ensures id == TimerId(-waitUs, old(timerNum) + 1) && polls == old(polls)
      ensures State() == Refresh(PutRepeat(old(State()), id,
        Repeating(waitUs, interval, TimerId(waitUs, old(timerNum) + 2), task)), clock)
    {
      timerNum := timerNum + 1;
      id := TimerId(-waitUs, timerNum);
      timerNum := timerNum + 1;
      var tid := TimerId(waitUs, timerNum);
      timerRepeats := timerRepeats[id := Repeating(waitUs, interval, tid, task)];
      timers := timers[tid := Repeat(id)];
      RefreshNearest();
    }

    method ArmOneShot(waitUs: int, task: Task) returns (id: TimerId)
      modifies this
      ensures id == TimerId(waitUs, old(timerNum) + 1) && polls == old(polls)
      ensures State() == Refresh(PutOneShot(old(State()), id, task), clock)
    {
      timerNum := timerNum + 1;
      id := TimerId(waitUs, timerNum);
      timers := timers[id := OneShot(task)];
      armed := armed + {id};
      RefreshNearest();
    }

    method RunAt(waitUs: int, task: Task, interval: int) returns (id: TimerId)
      requires Valid() && Legal(State(), Call.RunAt(waitUs, task, interval))
      modifies this
      ensures Valid() && polls == old(polls)
      ensures id == ArmedId(old(State()), waitUs, interval)
      ensures State() == DoRunAt(old(State()), waitUs, task, interval, clock)
    {
      hide Inv, Legal, LegalIn, Refresh, PutRepeat, PutOneShot;
      RunAtKeepsInv(State(), waitUs, task, interval, clock);
      if exiting {
        id := TimerId(0, 0);
      } else if interval != 0 {
        id := ArmRepeating(waitUs, task, interval);
      } else {
        id := ArmOneShot(waitUs, task);
      }
    }

    method Cancel(id: TimerId) returns (found: bool)
      requires Valid() && Legal(State(), Call.Cancel(id))
      modifies this
      ensures Valid() && polls == old(polls)
      ensures found == CancelResult(old(State()), id)
      ensures State() == DoCancel(old(State()), id)
    {
      CancelKeepsInv(State(), id);
      if id.first < 0 {
        var tid := timerRepeats[id].tid;
        timers := timers - {tid};
        timerRepeats := timerRepeats - {id};
        return true;
      } else if id in timers {
        timers := timers - {id};
        cancelled := cancelled + {id};
        return true;
      } else {
        return false;
      }
    }

    /** A user callback that makes the given calls. */
    method RunTask(calls: seq<Call>)
      requires Valid()
      modifies this
      ensures Valid() && polls == old(polls)
      ensures State() == DoCalls(old(State()), calls, clock)
    {
      hide Inv, DoRunAt, DoCancel;
      var i := 0;
      while i < |calls|
        invariant 0 <= i <= |calls| && Valid() && polls == old(polls)
        invariant DoCalls(State(), calls[i..], clock) == DoCalls(old(State()), calls, clock)
      {
        ghost var s := State();
        CallKeepsInv(s, calls[i], clock);
        if LegalIn(timers, timerRepeats, calls[i]) {
          match calls[i] {
            case RunAt(waitUs, task, interval) => var _ := RunAt(waitUs, task, interval);
            case Cancel(id) => var _ := Cancel(id);
            case Exit => exiting := true;
          }
        }
        assert calls[i..][0] == calls[i] && calls[i..][1..] == calls[i + 1..];
        i := i + 1;
      }
    }

    method RepeatableTimeout(r: TimerId)
      requires r in timerRepeats
      modifies this
      ensures polls == old(polls)
      ensures State() == Rearm(old(State()), r, clock)
    {
      var tr := timerRepeats[r];
      var at := tr.at + tr.interval;
      timerNum := timerNum + 1;
      var tid := TimerId(at, timerNum);
      timerRepeats := timerRepeats[r := Repeating(at, tr.interval, tid, tr.task)];
      timers := timers[tid := Repeat(r)];
      RefreshNearest();
    }

    /** One turn of the firing loop up to the user's callback: takes the front out of m_timers and
        re-arms it if it repeats. */
    method FireFront()
      requires Valid() && timers != map[]
      modifies this
      ensures Valid() && polls == old(polls)
      ensures State() == Fire(old(State()), clock)
    {
      hide TwoMaps, Entries, History, TimeoutSeen, Refresh, Rearm, IsMin;
      ghost var s := State();
      FireKeepsInv(s, clock);
      var k := Begin();
      var closure := timers[k];
      timers := timers - {k};
      fired := fired + [Firing(k, closure)];
      match closure {
        case OneShot(_) =>
        case Repeat(r) =>
          FireRepeat(s, r, clock);
          RepeatableTimeout(r);
      }
    }

    method HandleTimeout(scripts: seq<seq<Call>>)
      requires Valid()
      modifies this
      ensures Valid() && polls == old(polls)
      ensures State() == Timeout(old(State()), scripts, clock)
      ensures FiredBy(old(State()), State(), clock(old(ticks))) && PollsExactly(State(), clock)
      ensures timerNum < TWO62 ==> forall k :: k in timers ==> k.first > clock(old(ticks))
    {
      hide TwoMaps, Entries, History, TimeoutSeen, DoCalls, Outstanding, Refresh, Fire, IsMin, FiredBy, PollsExactly, Grown;
      TimeoutExact(State(), scripts, clock);
      TimeoutKeepsInv(State(), scripts, clock);
      ApplyKeepsInv(State(), ReadClock, clock);
      var now := TimeMilli();
      ghost var start := State();
      var i := 0;
      while true
        invariant 0 <= i <= |scripts| && Valid() && polls == old(polls)
        invariant Fires(State(), now, scripts[i..], clock) == Fires(start, now, scripts, clock)
        decreases |scripts| - i, Outstanding(State(), now)
      {
        if timers == map[] {
          break;
        }
        var k := Begin();
        if !Less(k, TimerId(now, 0x4000_0000_0000_0000)) {
          break;
        }
        FireDecreases(State(), now, clock);
        FireFront();
        if i < |scripts| {
          assert scripts[i..][0] == scripts[i] && scripts[i..][1..] == scripts[i + 1..];
          CallsKeepInv(State(), scripts[i], clock);
          RunTask(scripts[i]);
          i := i + 1;
        }
      }
      RefreshNearest();
    }

    method LoopOnce(waitUs: int, round: Round)
      requires Valid()
      modifies this
      ensures Valid()
      ensures State() == Once(old(State()), round, clock)
      ensures polls == old(polls) + [Min(waitUs, old(nextTimeout))]
    {
      OnceKeepsInv(State(), round, clock);
      polls := polls + [Min(waitUs, nextTimeout)];
      RunTask(round.handlers);
      HandleTimeout(round.scripts);
    }

    method Run(rounds: seq<Round>, last: Round)
      requires Valid()
      modifies this
      ensures Valid()
      ensures State() == Loop(old(State()), rounds, last, clock)
      ensures Spent(State()) && fired == Rounds(old(State()), rounds, clock).fired
      ensures polls == old(polls) + LoopPolls(old(State()), rounds, clock)
      ensures forall i :: |old(polls)| <= i < |polls| ==> 0 <= polls[i] <= 1000
      ensures polls[|polls| - 1] == 0
    {
      hide Inv, Once, Refresh, Clear, Spent;
      ghost var start, was := State(), polls;
      LoopEndsClean(start, rounds, last, clock);
      LoopPollsBounded(start, rounds, clock);
      var i := 0;
      while !exiting
        invariant 0 <= i <= |rounds| && Valid()
        invariant Rounds(State(), rounds[i..], clock) == Rounds(start, rounds, clock)
        invariant polls + RoundPolls(State(), rounds[i..], clock) == was + RoundPolls(start, rounds, clock)
        decreases |rounds| - i, !exiting
      {
        if i < |rounds| {
          assert rounds[i..][0] == rounds[i] && rounds[i..][1..] == rounds[i + 1..];
          LoopOnce(1000, rounds[i]);
          i := i + 1;
        } else {
          CallKeepsInv(State(), Exit, clock);
          exiting := true;
        }
      }
      assert State() == Rounds(start, rounds, clock) && polls == was + RoundPolls(start, rounds, clock);
      ClearKeepsInv(State());
      ClearTimers();
      LoopOnce(0, last);
    }

    method ClearTimers()
      modifies this
      ensures State() == Clear(old(State())) && polls == old(polls) && nextTimeout == old(nextTimeout)
    {
      cleared := cleared + set k | k in timers && timers[k].OneShot?;
      timers := map[];
      timerRepeats := map[];
    }
  }
}
