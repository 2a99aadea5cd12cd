/** Timer identifiers and the order std::map keeps them in. */
module TimerIds {

  /** The pair<int64_t,int64_t> of eventbase.h: a deadline (negated for the public
      id of a repeating timer) and a sequence number. */
  datatype TimerId = TimerId(first: int, second: int)

  predicate Less(a: TimerId, b: TimerId) {
    a.first < b.first || (a.first == b.first && a.second < b.second)
  }

  ghost predicate IsMin(keys: set<TimerId>, k: TimerId) {
    k in keys && forall j :: j in keys && j != k ==> Less(k, j)
  }

  lemma MinExists(keys: set<TimerId>) returns (k: TimerId)
    requires keys != {}
    ensures IsMin(keys, k)
  {
    var x :| x in keys;
    if keys == {x} {
      k := x;
    } else {
      var rest := keys - {x};
      var m := MinExists(rest);
      k := if Less(x, m) then x else m;
      assert forall j :: j in keys && j != k ==> j == x || j in rest;
    }
  }

  /** The front of an ordered map with these keys. */
  ghost function MinKey(keys: set<TimerId>): (k: TimerId)
    requires keys != {}
    ensures k in keys && IsMin(keys, k)
  {
    assert exists k :: IsMin(keys, k) by { var k := MinExists(keys); }
    var k :| IsMin(keys, k);
    k
  }
}

/** Sums over finite maps, for the measure of the firing loop. */
module MapSums {

  ghost function Sum<K(!new)>(w: map<K, nat>): nat {
    if w == map[] then 0
    else
      var k :| k in w;
      w[k] + Sum(w - {k})
  }

  lemma {:induction false} SumRemove<K(!new)>(w: map<K, nat>, k: K)
    requires k in w
    ensures Sum(w) == w[k] + Sum(w - {k})
    decreases |w|
  {
    var j :| j in w && Sum(w) == w[j] + Sum(w - {j});
    if j != k {
      SumRemove(w - {j}, k);
      SumRemove(w - {k}, j);
      assert w - {j} - {k} == w - {k} - {j};
    }
  }

  lemma SumInsert<K(!new)>(w: map<K, nat>, k: K, n: nat)
    requires k !in w
    ensures Sum(w[k := n]) == n + Sum(w)
  {
    SumRemove(w[k := n], k);
    assert w[k := n] - {k} == w;
  }
}

/** The timer half of EventBase as a transition system: what each timer call and
    each iteration of the firing loop does to the two maps. The fields armed,
    cancelled, cleared, fired, seenMin and seenAt record history only. */
module Timers {
  import opened TimerIds
  import opened MapSums

  const TWO31: int := 0x8000_0000
  const TWO32: int := 0x1_0000_0000
  const TWO62: int := 0x4000_0000_0000_0000
  const IDLE_TIMEOUT: int := 0x4000_0000

  /** A user callback. */
  type Task = nat

  /** What m_timers maps to: a user task, or the closure that holds a pointer to
      an entry of m_timerRepeats (named by its key, which a std::map keeps stable). */
  datatype Closure = OneShot(task: Task) | Repeat(rid: TimerId)

  datatype Repeating = Repeating(at: int, interval: int, tid: TimerId, task: Task)

  datatype Firing = Firing(key: TimerId, closure: Closure)

  datatype Sched = Sched(
    timers: map<TimerId, Closure>,
    repeats: map<TimerId, Repeating>,
    num: nat,
    next: int,
    exiting: bool,
    ticks: nat,
    seenMin: int,
    seenAt: int,
    armed: set<TimerId>,
    cancelled: set<TimerId>,
    cleared: set<TimerId>,
    fired: seq<Firing>)

  /** The i-th reading of util::timeMilli(). The wall clock may jump either way. */
  type Clock = nat -> int

  const Fresh: Sched := Sched(map[], map[], 0, IDLE_TIMEOUT, false, 0, 0, 0, {}, {}, {}, [])

  /** Conversion of a 64-bit value to a 32-bit int. */
  function Narrow32(x: int): (r: int)
    ensures -TWO31 <= r < TWO31
  {
    (x + TWO31) % TWO32 - TWO31
  }

  function Clamp(x: int): int { if x < 0 then 0 else x }

  ghost function Refresh(s: Sched, clock: Clock): Sched {
    if s.timers == map[] then s.(next := IDLE_TIMEOUT)
    else
      var first := MinKey(s.timers.Keys).first;
      var now := clock(s.ticks);
      s.(next := Clamp(Narrow32(first - now)), ticks := s.ticks + 1, seenMin := first, seenAt := now)
  }

  // ----- the calls a user can make on the loop thread -----

  datatype Call =
    | RunAt(waitUs: int, task: Task, interval: int)
    | Cancel(id: TimerId)
    | Exit

  /** The calls the scheduler is specified for: repeat intervals are positive, the sign
      of an id tells the two kinds of timers apart, a repeating id still exists when it is
      cancelled, and nobody forges the internal key of a repeating timer. */
  predicate Legal(s: Sched, c: Call) {
    LegalIn(s.timers, s.repeats, c)
  }

  predicate LegalIn(timers: map<TimerId, Closure>, repeats: map<TimerId, Repeating>, c: Call) {
    match c
    case RunAt(waitUs, _, interval) =>
      if interval == 0 then waitUs >= 0 else interval > 0 && waitUs > 0
    case Cancel(id) =>
      if id.first < 0 then id in repeats else id in timers ==> timers[id].OneShot?
    case Exit => true
  }

  /** The id that runAt returns. */
  function ArmedId(s: Sched, waitUs: int, interval: int): TimerId {
    if s.exiting then TimerId(0, 0)
    else if interval != 0 then TimerId(-waitUs, s.num + 1)
    else TimerId(waitUs, s.num + 1)
  }

  ghost function DoRunAt(s: Sched, waitUs: int, task: Task, interval: int, clock: Clock): Sched {
    if s.exiting then s
    else
      var id := ArmedId(s, waitUs, interval);
      if interval != 0 then
        Refresh(PutRepeat(s, id, Repeating(waitUs, interval, TimerId(waitUs, s.num + 2), task)), clock)
      else
        Refresh(PutOneShot(s, id, task), clock)
  }

  function PutOneShot(s: Sched, id: TimerId, task: Task): Sched
    requires id.second >= 0
  {
    s.(timers := s.timers[id := OneShot(task)], num := id.second, armed := s.armed + {id})
  }

  /** Writes the entry r and its closure; the entry's tid carries the newest number. */
  function PutRepeat(s: Sched, r: TimerId, entry: Repeating): Sched
    requires entry.tid.second >= 0
  {
    s.(repeats := s.repeats[r := entry], timers := s.timers[entry.tid := Repeat(r)],
       num := entry.tid.second)
  }

  function CancelResult(s: Sched, id: TimerId): bool {
    id.first < 0 || id in s.timers
  }

  function DoCancel(s: Sched, id: TimerId): Sched
    requires id.first < 0 ==> id in s.repeats
  {
    if id.first < 0 then
      s.(timers := s.timers - {s.repeats[id].tid}, repeats := s.repeats - {id})
    else if id in s.timers then
      s.(timers := s.timers - {id}, cancelled := s.cancelled + {id})
    else s
  }

  /** A call outside Legal is not part of any run the model speaks about; it is dropped. */
  ghost function DoCall(s: Sched, c: Call, clock: Clock): Sched {
    if !Legal(s, c) then s
    else match c
      case RunAt(waitUs, task, interval) => DoRunAt(s, waitUs, task, interval, clock)
      case Cancel(id) => DoCancel(s, id)
      case Exit => s.(exiting := true)
  }

  ghost function DoCalls(s: Sched, cs: seq<Call>, clock: Clock): Sched
    decreases |cs|
  {
    if cs == [] then s else DoCalls(DoCall(s, cs[0], clock), cs[1..], clock)
  }

  // ----- the firing loop -----

  /** The front of m_timers is at or before now; the pair compared with it carries a number above
      all others. */
  ghost predicate Due(s: Sched, now: int) {
    s.timers != map[] && Less(MinKey(s.timers.Keys), TimerId(now, TWO62))
  }

  /** Pops the front of m_timers. */
  ghost function Pop(s: Sched): Sched
    requires s.timers != map[]
  {
    var k := MinKey(s.timers.Keys);
    s.(timers := s.timers - {k}, fired := s.fired + [Firing(k, s.timers[k])])
  }

  /** Everything one iteration of the loop does before the user's callback runs: pop the
      front and, for a repeating timer, re-arm it. */
  ghost function Fire(s: Sched, clock: Clock): Sched
    requires Inv(s) && s.timers != map[]
  {
    match s.timers[MinKey(s.timers.Keys)]
    case OneShot(_) => Pop(s)
    case Repeat(r) => Rearm(Pop(s), r, clock)
  }

  ghost function Rearm(s: Sched, r: TimerId, clock: Clock): Sched
    requires r in s.repeats
  {
    var tr := s.repeats[r];
    var at := tr.at + tr.interval;
    Refresh(PutRepeat(s, r, Repeating(at, tr.interval, TimerId(at, s.num + 1), tr.task)), clock)
  }

  /** The loop of handleTimeout for one reading of the clock. The i-th callback makes the
      calls scripts[i]; callbacks after the last script leave the timers alone, so every
      execution of the loop that ends is one of these. */
  ghost function Fires(s: Sched, now: int, scripts: seq<seq<Call>>, clock: Clock): Sched
    requires Inv(s)
    decreases |scripts|, Outstanding(s, now)
  {
    if !Due(s, now) then s
    else
      var s1 := Fire(s, clock);
      FireKeepsInv(s, clock);
      if scripts == [] then
        FireDecreases(s, now, clock);
        Fires(s1, now, [], clock)
      else
        CallsKeepInv(s1, scripts[0], clock);
        Fires(DoCalls(s1, scripts[0], clock), now, scripts[1..], clock)
  }

  // ----- the invariant -----

  /** The two maps describe each other: every repeat closure sits at the current tid of a
      live entry, and every entry has its closure there. */
  ghost predicate TwoMaps(s: Sched) {
    && (forall r :: r in s.repeats ==>
         && s.repeats[r].tid in s.timers
         && s.timers[s.repeats[r].tid] == Repeat(r))
    && (forall k :: k in s.timers && s.timers[k].Repeat? ==>
         && s.timers[k].rid in s.repeats
         && s.repeats[s.timers[k].rid].tid == k)
  }

  ghost predicate Entries(s: Sched) {
    && (forall r :: r in s.repeats ==>
         && r.first < 0 && 1 <= r.second <= s.num
         && s.repeats[r].interval > 0
         && s.repeats[r].at == s.repeats[r].tid.first)
    && (forall k :: k in s.timers ==> 1 <= k.second <= s.num)
    && (forall k :: k in s.timers && s.timers[k].OneShot? ==> k in s.armed)
  }

  ghost predicate WasFired(s: Sched, id: TimerId) {
    exists i :: 0 <= i < |s.fired| && s.fired[i].key == id
  }

  /** Every one-shot ever armed is in exactly one place, and no key fires twice. */
  ghost predicate History(s: Sched) {
    && (forall id :: id in s.armed ==>
         && 0 <= id.first && 1 <= id.second <= s.num
         && (id in s.timers ==> s.timers[id].OneShot?)
         && (id in s.timers <==> !(WasFired(s, id) || id in s.cancelled || id in s.cleared))
         && !(WasFired(s, id) && id in s.cancelled)
         && !(WasFired(s, id) && id in s.cleared)
         && !(id in s.cancelled && id in s.cleared))
    && (forall id :: id in s.cancelled || id in s.cleared ==> id.second <= s.num)
    && (forall i :: 0 <= i < |s.fired| ==>
         s.fired[i].key.second <= s.num && s.fired[i].key !in s.timers)
    && (forall i, j :: 0 <= i < j < |s.fired| ==> s.fired[i].key != s.fired[j].key)
  }

  /** The poll timeout was computed from an earliest deadline that has not moved forward. */
  ghost predicate TimeoutSeen(s: Sched) {
    && 0 <= s.next <= IDLE_TIMEOUT * 2
    && (s.timers != map[] ==>
          && s.next == Clamp(Narrow32(s.seenMin - s.seenAt))
          && forall k :: k in s.timers ==> s.seenMin <= k.first)
  }

  ghost predicate Inv(s: Sched) {
    TwoMaps(s) && Entries(s) && History(s) && TimeoutSeen(s)
  }

  lemma RefreshKeepsInv(s: Sched, clock: Clock)
    requires TwoMaps(s) && Entries(s) && History(s)
    ensures Inv(Refresh(s, clock))
  {
  }

  /** The state between erase and re-arm: the entry r, if it exists, has no closure. */
  ghost predicate TwoMapsGap(s: Sched, r: TimerId) {
    && (forall q :: q in s.repeats && q != r ==>
         && s.repeats[q].tid in s.timers
         && s.timers[s.repeats[q].tid] == Repeat(q))
    && (forall k :: k in s.timers && s.timers[k].Repeat? ==>
         && s.timers[k].rid in s.repeats && s.timers[k].rid != r
         && s.repeats[s.timers[k].rid].tid == k)
  }

  lemma PutRepeatMaps(s: Sched, r: TimerId, entry: Repeating)
    requires TwoMapsGap(s, r) && Entries(s)
    requires r.first < 0 && 1 <= r.second < entry.tid.second && s.num < entry.tid.second
    requires entry.interval > 0 && entry.at == entry.tid.first
    ensures var t := PutRepeat(s, r, entry); TwoMaps(t) && Entries(t)
  {
    assert entry.tid !in s.timers;
  }

  lemma PutRepeatCloses(s: Sched, r: TimerId, entry: Repeating)
    requires TwoMapsGap(s, r) && Entries(s) && History(s)
    requires r.first < 0 && 1 <= r.second < entry.tid.second && s.num < entry.tid.second
    requires entry.interval > 0 && entry.at == entry.tid.first
    ensures var t := PutRepeat(s, r, entry); TwoMaps(t) && Entries(t) && History(t)
  {
    hide TwoMaps, TwoMapsGap, History;
    PutRepeatMaps(s, r, entry);
    HistoryGrows(s, PutRepeat(s, r, entry), entry.tid);
  }

  /** Adding a key newer than every recorded one disturbs no history. */
  lemma HistoryGrows(s: Sched, t: Sched, k: TimerId)
    requires History(s) && s.num <= t.num && s.num < k.second
    requires t.timers.Keys == s.timers.Keys + {k} && forall j :: j in s.timers ==> t.timers[j] == s.timers[j]
    requires t.armed == s.armed && t.cancelled == s.cancelled && t.cleared == s.cleared && t.fired == s.fired
    ensures History(t)
  {
  }

  lemma PutOneShotKeeps(s: Sched, id: TimerId, task: Task)
    requires TwoMaps(s) && Entries(s) && History(s)
    requires id.first >= 0 && id.second == s.num + 1
    ensures var t := PutOneShot(s, id, task); TwoMaps(t) && Entries(t) && History(t)
  {
    var t := PutOneShot(s, id, task);
    assert id !in s.timers;
    assert forall x :: WasFired(t, x) == WasFired(s, x);
  }

  lemma InstallKeepsInv(s: Sched, r: TimerId, entry: Repeating, clock: Clock)
    requires TwoMapsGap(s, r) && Entries(s) && History(s)
    requires r.first < 0 && 1 <= r.second < entry.tid.second && s.num < entry.tid.second
    requires entry.interval > 0 && entry.at == entry.tid.first
    ensures Inv(Refresh(PutRepeat(s, r, entry), clock))
  {
    hide TwoMaps, TwoMapsGap, Entries, History, TimeoutSeen, IsMin, PutRepeat;
    PutRepeatCloses(s, r, entry);
    RefreshKeepsInv(PutRepeat(s, r, entry), clock);
  }

  lemma NewEntryGap(s: Sched, r: TimerId)
    requires TwoMaps(s) && Entries(s) && r.second > s.num
    ensures TwoMapsGap(s, r)
  {
  }

  lemma RunAtKeepsInv(s: Sched, waitUs: int, task: Task, interval: int, clock: Clock)
    requires Inv(s) && Legal(s, RunAt(waitUs, task, interval))
    ensures Inv(DoRunAt(s, waitUs, task, interval, clock))
  {
    hide TwoMaps, TwoMapsGap, Entries, History, TimeoutSeen;
    if !s.exiting {
      var id := ArmedId(s, waitUs, interval);
      if interval != 0 {
        var entry := Repeating(waitUs, interval, TimerId(waitUs, s.num + 2), task);
        NewEntryGap(s, id);
        InstallKeepsInv(s, id, entry, clock);
      } else {
        PutOneShotKeeps(s, id, task);
        RefreshKeepsInv(PutOneShot(s, id, task), clock);
      }
    }
  }

  lemma CancelKeepsMaps(s: Sched, id: TimerId)
    requires Inv(s) && Legal(s, Cancel(id))
    ensures TwoMaps(DoCancel(s, id)) && Entries(DoCancel(s, id)) && TimeoutSeen(DoCancel(s, id))
  {
    hide History;
    assert TwoMaps(DoCancel(s, id)) by {
      hide Entries, TimeoutSeen;
    }
    hide TwoMaps;
  }

  lemma CancelKeepsHistory(s: Sched, id: TimerId)
    requires Inv(s) && Legal(s, Cancel(id))
    ensures History(DoCancel(s, id))
  {
    hide TimeoutSeen;
    var t := DoCancel(s, id);
    assert forall x :: WasFired(t, x) == WasFired(s, x);
    hide WasFired;
  }

  lemma CancelKeepsInv(s: Sched, id: TimerId)
    requires Inv(s) && Legal(s, Cancel(id))
    ensures Inv(DoCancel(s, id))
  {
    hide TwoMaps, Entries, History, TimeoutSeen, DoCancel, Legal;
    CancelKeepsMaps(s, id);
    CancelKeepsHistory(s, id);
  }

  lemma CallKeepsInv(s: Sched, c: Call, clock: Clock)
    requires Inv(s)
    ensures Inv(DoCall(s, c, clock))
  {
    if Legal(s, c) {
      match c
      case RunAt(waitUs, task, interval) => RunAtKeepsInv(s, waitUs, task, interval, clock);
      case Cancel(id) => CancelKeepsInv(s, id);
      case Exit =>
        var t := s.(exiting := true);
        assert forall x :: WasFired(t, x) == WasFired(s, x);
    }
  }

  lemma {:induction false} CallsKeepInv(s: Sched, cs: seq<Call>, clock: Clock)
    requires Inv(s)
    ensures Inv(DoCalls(s, cs, clock))
    decreases |cs|
  {
    if cs != [] {
      CallKeepsInv(s, cs[0], clock);
      CallsKeepInv(DoCall(s, cs[0], clock), cs[1..], clock);
    }
  }

  lemma PopFires(s: Sched)
    requires Inv(s) && s.timers != map[]
    ensures forall x :: WasFired(Pop(s), x) <==> WasFired(s, x) || x == MinKey(s.timers.Keys)
  {
    var k, t := MinKey(s.timers.Keys), Pop(s);
    assert t.fired[|s.fired|].key == k;
    forall x ensures WasFired(t, x) <==> WasFired(s, x) || x == k {
      if WasFired(s, x) {
        var i :| 0 <= i < |s.fired| && s.fired[i].key == x;
        assert t.fired[i].key == x;
      }
    }
  }

  lemma PopKeepsHistory(s: Sched)
    requires Inv(s) && s.timers != map[]
    ensures Entries(Pop(s)) && History(Pop(s))
  {
    hide TwoMaps, TimeoutSeen, IsMin, WasFired;
    PopFires(s);
    assert Entries(Pop(s)) by {
      hide History;
    }
  }

  lemma PopKeepsMaps(s: Sched)
    requires Inv(s) && s.timers != map[]
    ensures match s.timers[MinKey(s.timers.Keys)]
            case OneShot(_) => TwoMaps(Pop(s)) && TimeoutSeen(Pop(s))
            case Repeat(r) =>
              && TwoMapsGap(Pop(s), r)
              && r in Pop(s).repeats
  {
    hide Entries, History, IsMin;
  }

  lemma EntryFacts(s: Sched, r: TimerId)
    requires Entries(s) && r in s.repeats
    ensures r.first < 0 && 1 <= r.second <= s.num && s.repeats[r].interval > 0
  {
  }

  lemma RearmKeepsInv(s: Sched, r: TimerId, clock: Clock)
    requires TwoMapsGap(s, r) && Entries(s) && History(s) && r in s.repeats
    ensures Inv(Rearm(s, r, clock))
  {
    hide TwoMaps, TwoMapsGap, Entries, History, TimeoutSeen, IsMin, Refresh, PutRepeat;
    EntryFacts(s, r);
    var tr := s.repeats[r];
    var at := tr.at + tr.interval;
    InstallKeepsInv(s, r, Repeating(at, tr.interval, TimerId(at, s.num + 1), tr.task), clock);
  }

  lemma FireKeepsInv(s: Sched, clock: Clock)
    requires Inv(s) && s.timers != map[]
    ensures Inv(Fire(s, clock))
  {
    hide TwoMaps, TwoMapsGap, Entries, History, TimeoutSeen, Pop, Rearm, IsMin;
    PopKeepsHistory(s);
    PopKeepsMaps(s);
    match s.timers[MinKey(s.timers.Keys)]
    case OneShot(_) =>
    case Repeat(r) => RearmKeepsInv(Pop(s), r, clock);
  }

  // ----- termination -----

  /** How often the entry at k fires if the loop runs to the reading now. */
  ghost function Owed(s: Sched, k: TimerId, now: int): nat
    requires Inv(s) && k in s.timers
  {
    if k.first > now then 0
    else match s.timers[k]
      case OneShot(_) => 1
      case Repeat(r) => (now - k.first) / s.repeats[r].interval + 1
  }

  ghost function Owes(s: Sched, now: int): map<TimerId, nat>
    requires Inv(s)
  {
    map k | k in s.timers :: Owed(s, k, now)
  }

  ghost function Outstanding(s: Sched, now: int): nat
    requires Inv(s)
  {
    Sum(Owes(s, now))
  }

  lemma AtLeastOne(a: int, i: int)
    requires a >= 1 && i > 0
    ensures a * i >= i
  {
  }

  lemma DivUnique(x: int, q: int, r: int, i: int)
    requires i > 0 && x == q * i + r && 0 <= r < i
    ensures x / i == q
  {
    var p, t := x / i, x % i;
    assert (p - q) * i == r - t;
    if p < q {
      AtLeastOne(q - p, i);
    } else if p > q {
      AtLeastOne(p - q, i);
    }
  }

  lemma DivStep(x: int, i: int)
    requires i > 0
    ensures (x - i) / i == x / i - 1
  {
    DivUnique(x - i, x / i - 1, x % i, i);
  }

  /** Paying one firing of a repeating timer: its next deadline owes one less. */
  lemma PaidOnce(at: int, i: int, now: int)
    requires i > 0 && at <= now
    ensures (now - at) / i + 1 == 1 + if at + i > now then 0 else (now - (at + i)) / i + 1
  {
    DivStep(now - at, i);
    if at + i > now {
      DivUnique(now - at, 0, now - at, i);
    } else {
      assert now - (at + i) == now - at - i;
    }
  }

  /** The entry behind a repeat closure, and the number that re-arming gives out. */
  lemma EntryOf(s: Sched, k: TimerId, r: TimerId)
    requires TwoMaps(s) && Entries(s) && k in s.timers && s.timers[k] == Repeat(r)
    ensures r in s.repeats && s.repeats[r].tid == k && s.repeats[r].at == k.first && s.repeats[r].interval > 0
    ensures forall j :: j in s.timers ==> j.second <= s.num
  {
  }

  /** What firing a repeating timer does to the maps. */
  lemma FireRepeat(s: Sched, r: TimerId, clock: Clock)
    requires Inv(s) && s.timers != map[] && s.timers[MinKey(s.timers.Keys)] == Repeat(r)
    ensures r in s.repeats
    ensures var k, t, tr := MinKey(s.timers.Keys), Fire(s, clock), s.repeats[r];
            var tid := TimerId(k.first + tr.interval, s.num + 1);
            && tid !in s.timers && k == tr.tid && k.first == tr.at && tr.interval > 0
            && t.timers == (s.timers - {k})[tid := Repeat(r)]
            && t.repeats == s.repeats[r := Repeating(tid.first, tr.interval, tid, tr.task)]
  {
    hide TwoMaps, Entries, History, TimeoutSeen, IsMin;
    EntryOf(s, MinKey(s.timers.Keys), r);
  }

  /** Every other key keeps its closure, and its entry if it has one. */
  lemma FireKeepsOthers(s: Sched, r: TimerId, j: TimerId, clock: Clock)
    requires Inv(s) && s.timers != map[] && s.timers[MinKey(s.timers.Keys)] == Repeat(r)
    requires j in s.timers && j != MinKey(s.timers.Keys)
    ensures var t := Fire(s, clock);
            && j in t.timers && t.timers[j] == s.timers[j]
            && (s.timers[j].Repeat? ==>
                  var q := s.timers[j].rid; q in s.repeats && q in t.repeats && t.repeats[q] == s.repeats[q])
  {
    hide History, TimeoutSeen, Fire, IsMin;
    FireRepeat(s, r, clock);
    if s.timers[j].Repeat? {
      EntryOf(s, j, s.timers[j].rid);
    }
    hide TwoMaps, Entries;
  }

  lemma OwedUntouched(s: Sched, r: TimerId, j: TimerId, now: int, clock: Clock)
    requires Inv(s) && s.timers != map[] && s.timers[MinKey(s.timers.Keys)] == Repeat(r)
    requires Inv(Fire(s, clock))
    requires j in s.timers && j != MinKey(s.timers.Keys)
    ensures j in Fire(s, clock).timers && Owed(Fire(s, clock), j, now) == Owed(s, j, now)
  {
    hide TwoMaps, Entries, History, TimeoutSeen, Fire, IsMin;
    FireKeepsOthers(s, r, j, clock);
  }

  lemma FireRepeatOwes(s: Sched, t: Sched, k: TimerId, r: TimerId, now: int, clock: Clock)
    requires Inv(s) && Due(s, now) && k == MinKey(s.timers.Keys) && s.timers[k] == Repeat(r)
    requires Inv(t) && t == Fire(s, clock)
    requires r in s.repeats && r in t.repeats && t.repeats[r].tid in t.timers
    ensures var tid := t.repeats[r].tid;
            && tid !in s.timers
            && Owed(t, tid, now) + 1 == Owed(s, k, now)
            && Owes(t, now) == (Owes(s, now) - {k})[tid := Owed(t, tid, now)]
  {
    hide TwoMaps, Entries, History, TimeoutSeen, Fire, IsMin;
    FireRepeat(s, r, clock);
    PaidOnce(k.first, s.repeats[r].interval, now);
    var tid := t.repeats[r].tid;
    forall j | j in s.timers && j != k
      ensures j in t.timers && Owed(t, j, now) == Owed(s, j, now)
    {
      OwedUntouched(s, r, j, now, clock);
    }
    assert Owes(t, now) == (Owes(s, now) - {k})[tid := Owed(t, tid, now)] by {
      hide Owed;
    }
  }

  /** Each firing pays off exactly one outstanding firing, re-arming included. */
  lemma FireDecreases(s: Sched, now: int, clock: Clock)
    requires Inv(s) && Due(s, now)
    ensures Inv(Fire(s, clock)) && Outstanding(Fire(s, clock), now) == Outstanding(s, now) - 1
  {
    hide TwoMaps, Entries, History, TimeoutSeen, Fire, Owed, IsMin;
    FireKeepsInv(s, clock);
    var t := Fire(s, clock);
    var k := MinKey(s.timers.Keys);
    SumRemove(Owes(s, now), k);
    match s.timers[k]
    case OneShot(_) =>
      FireOneShotOwes(s, now, clock);
    case Repeat(r) =>
      FireRepeat(s, r, clock);
      FireRepeatOwes(s, t, k, r, now, clock);
      var tid := t.repeats[r].tid;
      SumInsert(Owes(s, now) - {k}, tid, Owed(t, tid, now));
  }

  lemma FireOneShotOwes(s: Sched, now: int, clock: Clock)
    requires Inv(s) && Due(s, now) && s.timers[MinKey(s.timers.Keys)].OneShot?
    requires Inv(Fire(s, clock))
    ensures Owes(Fire(s, clock), now) == Owes(s, now) - {MinKey(s.timers.Keys)}
    ensures Owed(s, MinKey(s.timers.Keys), now) == 1
  {
    hide TwoMaps, Entries, History, TimeoutSeen;
  }
}
