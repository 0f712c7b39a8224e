/**
 `GlobalTaskQueue` and `Coordinator` as objects. Their methods run under a spin lock, so each is one
 section; `SchedulerMachine` lets any number of threads interleave such sections.
 */
module SchedulerObjects {
  import opened Common
  import opened SchedulerMachine

  class GlobalTaskQueue {
    var tasks: seq<Task>

    constructor ()
      ensures tasks == []
    {
      tasks := [];
    }

    method PushOne(task: Task)
      modifies this
      ensures tasks == old(tasks) + [task]
    {
      tasks := tasks + [task];
    }

    method PushMany(buffer: array<Task>, n: nat)
      requires n <= buffer.Length
      modifies this
      ensures tasks == old(tasks) + buffer[..n]
    {
      for i := 0 to n
        invariant tasks == old(tasks) + buffer[..i]
      {
        tasks := tasks + [buffer[i]];
        assert buffer[..i + 1] == buffer[..i] + [buffer[i]];
      }
    }

    method TryPopOne() returns (found: bool, task: Task)
      modifies this
      ensures found == (old(tasks) != [])
      ensures found ==> task == old(tasks)[0] && tasks == old(tasks)[1..]
      ensures !found ==> tasks == []
    {
      found, task := tasks != [], 0;
      if found {
        task := tasks[0];
        tasks := tasks[1..];
      }
    }

    /** Moves the first tasks, as many as there are and as fit into `out`. */
    method Grab(out: array<Task>) returns (got: nat)
      modifies this, out
      ensures got == Min(out.Length, |old(tasks)|)
      ensures out[..got] == old(tasks)[..got] && tasks == old(tasks)[got..]
    {
      got := 0;
      while got < out.Length
        invariant got <= out.Length && got <= |old(tasks)|
        invariant out[..got] == old(tasks)[..got] && tasks == old(tasks)[got..]
      {
        var found, task := TryPopOne();
        if !found {
          break;
        }
        out[got] := task;
        got := got + 1;
      }
    }
  }

  /** The coordinator. `wakeups` stands for the `wakeups_` of the workers it may wake. */
  class Coordinator {
    var stopped: seq<nat>
    var approximateSize: int
    const wakeups: array<nat>

    /** The size may be too large, never too small. */
    ghost predicate Valid()
      reads this
    {
      && |stopped| <= approximateSize
      && (forall w :: w in stopped ==> w < wakeups.Length)
      && (forall i, j :: 0 <= i < j < |stopped| ==> stopped[i] != stopped[j])
    }

    constructor (workers: nat)
      ensures Valid() && stopped == [] && approximateSize == 0 && fresh(wakeups) && wakeups.Length == workers
    {
      stopped := [];
      approximateSize := 0;
      wakeups := new nat[workers](_ => 0);
    }

    method AddStoppedWorker(w: nat)
      requires Valid() && w < wakeups.Length
      modifies this
      ensures Valid() && w in stopped
      ensures stopped == if w in old(stopped) then old(stopped) else old(stopped) + [w]
      ensures approximateSize == old(approximateSize) + (if w in old(stopped) then 0 else 1)
    {
      if w !in stopped {
        approximateSize := approximateSize + 1;
        stopped := stopped + [w];
      }
    }

    method WakeWorker()
      requires Valid()
      modifies this, wakeups
      ensures Valid()
      ensures old(stopped) == [] ==>
        stopped == [] && approximateSize == old(approximateSize) && wakeups[..] == old(wakeups[..])
      ensures old(stopped) != [] ==>
        && stopped == old(stopped)[1..]
        && approximateSize == old(approximateSize) - 1
        && old(stopped)[0] < wakeups.Length
        && wakeups[..] == old(wakeups[..])[old(stopped)[0] := old(wakeups[stopped[0]]) + 1]
    {
      if stopped != [] {
        var w := stopped[0];
        assert w in stopped;
        stopped := stopped[1..];
        wakeups[w] := wakeups[w] + 1;
        approximateSize := approximateSize - 1;
        assert forall v :: v in stopped ==> v in old(stopped);
      }
    }

    /** Does not decrement the size. */
    method Unlink(w: nat)
      requires Valid()
      modifies this
      ensures Valid() && w !in stopped
      ensures stopped == Without(old(stopped), w)
      ensures approximateSize == old(approximateSize)
    {
      WithoutIs(stopped, w);
      stopped := Without(stopped, w);
    }

    /** Wakes the longest-parked worker exactly when some worker is parked. */
    method NotifyOnSubmit()
      requires Valid()
      modifies this, wakeups
      ensures Valid()
      ensures old(stopped) != [] ==>
        && stopped == old(stopped)[1..]
        && old(stopped)[0] < wakeups.Length
        && wakeups[..] == old(wakeups[..])[old(stopped)[0] := old(wakeups[stopped[0]]) + 1]
      ensures old(stopped) == [] ==> stopped == [] && wakeups[..] == old(wakeups[..])
      ensures approximateSize == old(approximateSize) - (if old(stopped) == [] then 0 else 1)
    {
      assert stopped != [] ==> stopped[0] in stopped;
      if approximateSize > 0 {
        WakeWorker();
      }
    }
  }

  /** Removing the only occurrence leaves the order of the others. */
  lemma {:induction false} WithoutIs(parked: seq<nat>, w: nat)
    requires forall i, j :: 0 <= i < j < |parked| ==> parked[i] != parked[j]
    ensures var r := Without(parked, w);
      && w !in r && |r| <= |parked|
      && (forall v :: v in r <==> v in parked && v != w)
      && (forall i, j :: 0 <= i < j < |r| ==> r[i] != r[j])
  {
    if parked != [] {
      WithoutIs(parked[1..], w);
      assert parked == [parked[0]] + parked[1..];
      assert parked[0] !in parked[1..];
    }
  }
}
