/** safeCall and the wake-up handler of EventBase on the objects they use. */
module TaskDrain {
  import opened QueueProtocol
  import opened SafeQueues

  const READ_SIZE: nat := 1024

  /** What ::read on the wake-up pipe returns. */
  datatype PipeRead = Bytes | Interrupted

  /** How many safeCalls the first n tasks make; the i-th makes scripts[i], later ones none. */
  function CallsOf(scripts: seq<seq<Task>>, n: nat): nat
    decreases n
  {
    if n == 0 then 0
    else CallsOf(scripts, n - 1) + if n <= |scripts| then |scripts[n - 1]| else 0
  }

  class TaskLoop {
    const tasks: SafeQueue
    var pipe: nat
    ghost var accepted: seq<Task>
    ghost var ran: seq<Task>
    ghost var wakes: nat

    ghost predicate Valid()
      reads this, tasks
    {
      accepted == ran + tasks.items
    }

    constructor (capacity: nat)
      ensures Valid() && fresh(tasks) && accepted == [] && pipe == 0 && wakes == 0
    {
      tasks := new SafeQueue(capacity);
      pipe, accepted, ran, wakes := 0, [], [], 0;
    }

    method SafeCall(v: Task)
      requires Valid()
      modifies this`pipe, this`wakes, this`accepted, tasks`items
      ensures Valid() && pipe == old(pipe) + 1 && wakes == old(wakes) + 1 && ran == old(ran)
      ensures accepted == if Accepts(old(tasks.items), tasks.capacity, tasks.exiting)
                          then old(accepted) + [v] else old(accepted)
    {
      var ok := tasks.Push(v);
      if ok {
        accepted := accepted + [v];
      }
      Wakeup();
    }

    method Wakeup()
      modifies this`pipe, this`wakes
      ensures pipe == old(pipe) + 1 && wakes == old(wakes) + 1
    {
      pipe := pipe + 1;
      wakes := wakes + 1;
    }

    /** A task that makes the given safeCalls. */
    method RunTask(v: Task, calls: seq<Task>)
      requires accepted == ran + [v] + tasks.items
      modifies this, tasks`items
      ensures Valid() && ran == old(ran) + [v]
      ensures old(accepted) <= accepted && pipe == old(pipe) + |calls| && wakes == old(wakes) + |calls|
      ensures calls == [] ==> tasks.items == old(tasks.items)
    {
      ran := ran + [v];
      var i := 0;
      while i < |calls|
        invariant 0 <= i <= |calls| && Valid() && ran == old(ran) + [v]
        invariant old(accepted) <= accepted && pipe == old(pipe) + i && wakes == old(wakes) + i
        invariant i == 0 ==> tasks.items == old(tasks.items)
      {
        SafeCall(calls[i]);
        i := i + 1;
      }
    }

    /** The read handler of the wake-up channel while its fd is open. The i-th task run makes
        the calls scripts[i]; tasks after the last script make none. */
    method HandleRead(result: PipeRead, scripts: seq<seq<Task>>)
      requires Valid() && pipe > 0
      modifies this, tasks`items
      ensures Valid() && old(accepted) <= accepted && old(ran) <= ran
      ensures result.Interrupted? ==> pipe == old(pipe) && ran == old(ran) && accepted == old(accepted)
      ensures result.Bytes? ==>
                && tasks.items == [] && ran == accepted
                && pipe == (if old(pipe) < READ_SIZE then 0 else old(pipe) - READ_SIZE) + (wakes - old(wakes))
                && wakes == old(wakes) + CallsOf(scripts, |ran| - |old(ran)|)
    {
      if result.Bytes? {
        pipe := if pipe < READ_SIZE then 0 else pipe - READ_SIZE;
        var i := 0;
        ghost var n: nat := 0;
        while true
          invariant |ran| == |old(ran)| + n && i == (if n < |scripts| then n else |scripts|)
          invariant wakes == old(wakes) + CallsOf(scripts, n)
          invariant 0 <= i <= |scripts| && Valid() && old(accepted) <= accepted && old(ran) <= ran
          invariant pipe == (if old(pipe) < READ_SIZE then 0 else old(pipe) - READ_SIZE) + (wakes - old(wakes))
          decreases |scripts| - i, |tasks.items|
        {
          var popped := tasks.PopNow();
          if popped == Empty {
            break;
          }
          if i < |scripts| {
            RunTask(popped.v, scripts[i]);
            i := i + 1;
          } else {
            RunTask(popped.v, []);
          }
          n := n + 1;
        }
      }
    }
  }
}
