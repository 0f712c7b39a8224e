/**
 A worker's queues as an object, as its own thread runs it while no other thread touches them:
 overflow of the local queue, grabs from the global queue, and stealing. `SchedulerMachine` takes the
 same operations apart and lets all workers interleave.
 */
module SchedulerWorker {
  import opened Common
  import opened Counting
  import opened SchedulerMachine
  import opened SchedulerObjects
  import opened WorkStealingQueue

  // ---------------------------------------------------------------------------------------------
  // Specification

  datatype Queues = Queues(local: seq<Task>, global: seq<Task>)

  /** A task goes to the local queue; when that is full, its older part and the task go to the global
      queue together. */
  function Pushed(q: Queues, capacity: nat, task: Task): Queues {
    if |q.local| < capacity then Queues(q.local + [task], q.global)
    else
      var got := Min(GrabAmount(capacity) - 1, |q.local|);
      Queues(q.local[got..], q.global + (q.local[..got] + [task]))
  }

  /** What becomes of the task that was in the LIFO slot. */
  function Displaced(slot: Option<Task>, q: Queues, capacity: nat): Queues {
    if slot.Some? then Pushed(q, capacity, slot.value) else q
  }

  function PushedAll(q: Queues, capacity: nat, tasks: seq<Task>): Queues {
    if tasks == [] then q
    else Pushed(PushedAll(q, capacity, tasks[..|tasks| - 1]), capacity, tasks[|tasks| - 1])
  }

  predicate Overflows(q: Queues, capacity: nat) { |q.local| >= capacity }

  /** The parked workers after one notification. */
  function Notified(parked: seq<nat>): seq<nat> { if parked == [] then [] else parked[1..] }

  function Stored(q: Queues, x: Task): nat { Occ(q.local, x) + Occ(q.global, x) }

  /** No task is lost or doubled by an overflow, and the local queue stays within its capacity. */
  lemma PushedConserves(q: Queues, capacity: nat, task: Task, x: Task)
    requires 0 < capacity && |q.local| <= capacity
    ensures var q' := Pushed(q, capacity, task);
      Stored(q', x) == Stored(q, x) + One(task == x) && |q'.local| <= capacity
  {
    var got := Min(GrabAmount(capacity) - 1, |q.local|);
    OccConcat(q.local, [task], x);
    OccConcat(q.local[..got], q.local[got..], x);
    OccConcat(q.local[..got], [task], x);
    OccConcat(q.global, q.local[..got] + [task], x);
    assert q.local == q.local[..got] + q.local[got..];
    OccSingle(task, x);
  }

  /** A task displaced from the LIFO slot is in one of the queues. */
  lemma DisplacedConserves(slot: Option<Task>, q: Queues, capacity: nat, x: Task)
    requires 0 < capacity && |q.local| <= capacity
    ensures var q' := Displaced(slot, q, capacity);
      Stored(q', x) == Stored(q, x) + One(slot == Some(x)) && |q'.local| <= capacity
  {
    if slot.Some? { PushedConserves(q, capacity, slot.value, x); }
  }

  lemma {:induction false} PushedAllConserves(q: Queues, capacity: nat, tasks: seq<Task>, x: Task)
    requires 0 < capacity && |q.local| <= capacity
    ensures var q' := PushedAll(q, capacity, tasks);
      Stored(q', x) == Stored(q, x) + Occ(tasks, x) && |q'.local| <= capacity
  {
    if tasks != [] {
      var front := tasks[..|tasks| - 1];
      PushedAllConserves(q, capacity, front, x);
      PushedConserves(PushedAll(q, capacity, front), capacity, tasks[|tasks| - 1], x);
      OccConcat(front, [tasks[|tasks| - 1]], x);
      assert tasks == front + [tasks[|tasks| - 1]];
    }
  }

  lemma OneMorePushed(q: Queues, capacity: nat, tasks: seq<Task>, k: nat)
    requires 0 < k <= |tasks|
    ensures PushedAll(q, capacity, tasks[..k]) == Pushed(PushedAll(q, capacity, tasks[..k - 1]), capacity, tasks[k - 1])
  {
    assert tasks[..k][..k - 1] == tasks[..k - 1];
  }

  /** A buffer taken into an empty local queue never overflows. */
  lemma {:induction false} RoomForFirst(global: seq<Task>, capacity: nat, tasks: seq<Task>, k: nat)
    requires k <= |tasks| <= capacity
    ensures PushedAll(Queues([], global), capacity, tasks[..k]) == Queues(tasks[..k], global)
  {
    if k > 0 {
      RoomForFirst(global, capacity, tasks, k - 1);
      OneMorePushed(Queues([], global), capacity, tasks, k);
      assert tasks[..k] == tasks[..k - 1] + [tasks[k - 1]];
    }
  }

  lemma RoomForAll(global: seq<Task>, capacity: nat, tasks: seq<Task>)
    requires |tasks| <= capacity
    ensures PushedAll(Queues([], global), capacity, tasks) == Queues(tasks, global)
  {
    RoomForFirst(global, capacity, tasks, |tasks|);
    assert tasks[..|tasks|] == tasks;
  }

  /** Taking a batch from the front of some queue, keeping its first task, loses and doubles none. */
  lemma BatchConserves(q: Queues, capacity: nat, from: seq<Task>, got: nat, x: Task)
    requires 0 < capacity && |q.local| <= capacity && 0 < got <= |from|
    ensures Stored(PushedAll(q, capacity, from[1..got]), x) + One(from[0] == x) + Occ(from[got..], x)
         == Stored(q, x) + Occ(from, x)
  {
    PushedAllConserves(q, capacity, from[1..got], x);
    OccConcat(from[1..got], from[got..], x);
    OccFirst(from, x);
    assert from[1..] == from[1..got] + from[got..];
  }

  /** A batch from the front of `from`, into an empty local queue: its first task is taken out, the
      others stay in order, and `global` is what is left of `from`. */
  function Refilled(from: seq<Task>, capacity: nat): Queues
    requires from != []
  {
    var got := Min(GrabAmount(capacity), |from|);
    Queues(from[1..got], from[got..])
  }

  lemma RefilledIs(from: seq<Task>, capacity: nat)
    requires capacity > 0
    ensures from != [] ==>
      var got := Min(GrabAmount(capacity), |from|);
      PushedAll(Queues([], from[got..]), capacity, from[1..got]) == Refilled(from, capacity)
  {
    var got := Min(GrabAmount(capacity), |from|);
    if from != [] { RoomForAll(from[got..], capacity, from[1..got]); }
  }

  lemma Tail(a: seq<Task>, s: seq<Task>)
    requires 0 < |a| && a <= s
    ensures a[0] == s[0] && a[1..] == s[1..|a|]
  {
  }

  // ---------------------------------------------------------------------------------------------
  // The worker

  class Worker {
    const localQueue: WorkStealingTaskQueue
    const globalQueue: GlobalTaskQueue
    const coordinator: Coordinator
    var lifoSlot: Option<Task>
    var filoChain: nat

    ghost predicate Valid()
      reads localQueue, localQueue.buffer, coordinator
    {
      localQueue.Valid() && coordinator.Valid() && coordinator.wakeups != localQueue.buffer
    }

    function Capacity(): nat { localQueue.buffer.Length }

    ghost function Held(): Queues
      reads localQueue, globalQueue
    {
      Queues(localQueue.contents, globalQueue.tasks)
    }

    constructor (capacity: nat, globalQueue: GlobalTaskQueue, coordinator: Coordinator)
      requires capacity > 0 && coordinator.Valid()
      ensures Valid() && Capacity() == capacity && Held() == Queues([], globalQueue.tasks)
      ensures lifoSlot == None && filoChain == 0 && this.globalQueue == globalQueue && this.coordinator == coordinator
      ensures fresh(localQueue) && fresh(localQueue.buffer)
    {
      localQueue := new WorkStealingTaskQueue(capacity);
      this.globalQueue, this.coordinator := globalQueue, coordinator;
      lifoSlot, filoChain := None, 0;
    }

    method OffloadTasksToGlobalQueue(overflow: Task)
      requires Valid() && |localQueue.contents| == Capacity()
      modifies localQueue`head, localQueue`contents, globalQueue, coordinator, coordinator.wakeups
      ensures Valid() && Held() == Pushed(old(Held()), Capacity(), overflow)
      ensures coordinator.stopped == Notified(old(coordinator.stopped))
    {
      var buffer := new Task[GrabAmount(Capacity())];
      var got := localQueue.Grab(buffer, GrabAmount(Capacity()) - 1, 0);
      ghost var older := buffer[..got];
      buffer[got] := overflow;
      assert buffer[..got + 1] == older + [overflow];
      globalQueue.PushMany(buffer, got + 1);
      coordinator.NotifyOnSubmit();
    }

    method PushToLocalQueue(task: Task)
      requires Valid()
      modifies localQueue, localQueue.buffer, globalQueue, coordinator, coordinator.wakeups
      ensures Valid() && Held() == Pushed(old(Held()), Capacity(), task)
      ensures var parked := old(coordinator.stopped);
        coordinator.stopped == if Overflows(old(Held()), Capacity()) then Notified(parked) else parked
    {
      var ok := localQueue.TryPush(task);
      if !ok {
        OffloadTasksToGlobalQueue(task);
      }
    }

    /** The newest task goes to the slot, the one it displaces to the local queue. */
    method PushToLifoSlot(task: Task)
      requires Valid()
      modifies this`lifoSlot, localQueue, localQueue.buffer, globalQueue, coordinator, coordinator.wakeups
      ensures Valid() && lifoSlot == Some(task)
      ensures Held() == Displaced(old(lifoSlot), old(Held()), Capacity())
      ensures var parked := old(coordinator.stopped);
        var overflows := old(lifoSlot) != None && Overflows(old(Held()), Capacity());
        coordinator.stopped == if overflows then Notified(parked) else parked
    {
      if lifoSlot == None {
        lifoSlot := Some(task);
        return;
      }
      var displaced := lifoSlot.value;
      lifoSlot := Some(task);
      PushToLocalQueue(displaced);
    }

    /** `Push`, for a task that is running on this worker. A parked worker is woken in any case, and
        another one if the local queue overflows. */
    method Push(task: Task, hint: Hint)
      requires Valid()
      modifies this`lifoSlot, localQueue, localQueue.buffer, globalQueue, coordinator, coordinator.wakeups
      ensures Valid()
      ensures hint.UpToYou? ==> lifoSlot == old(lifoSlot) && Held() == Pushed(old(Held()), Capacity(), task)
      ensures hint.NextTask? ==> lifoSlot == Some(task) && Held() == Displaced(old(lifoSlot), old(Held()), Capacity())
      ensures hint.Yield? ==>
        lifoSlot == old(lifoSlot) && Held() == Queues(old(Held()).local, old(Held()).global + [task])
      ensures var parked := old(coordinator.stopped);
        var goesLocal := hint.UpToYou? || (hint.NextTask? && old(lifoSlot) != None);
        var overflows := goesLocal && Overflows(old(Held()), Capacity());
        coordinator.stopped == Notified(if overflows then Notified(parked) else parked)
    {
      match hint {
        case UpToYou => PushToLocalQueue(task);
        case NextTask => PushToLifoSlot(task);
        case Yield => globalQueue.PushOne(task);
      }
      coordinator.NotifyOnSubmit();
    }

    /** Keeps the first task of the buffer and pushes the others. */
    method GetFromBuffer(buffer: array<Task>, got: nat) returns (task: Option<Task>)
      requires Valid() && got <= buffer.Length && buffer != localQueue.buffer && buffer != coordinator.wakeups
      modifies localQueue, localQueue.buffer, globalQueue, coordinator, coordinator.wakeups
      ensures Valid()
      ensures got == 0 ==> task == None && Held() == old(Held())
      ensures got > 0 ==> task == Some(buffer[0]) && Held() == PushedAll(old(Held()), Capacity(), buffer[1..got])
    {
      if got == 0 {
        return None;
      }
      ghost var tasks := buffer[1..got];
      for k := 1 to got
        invariant Valid() && buffer[1..got] == tasks
        invariant Held() == PushedAll(old(Held()), Capacity(), tasks[..k - 1])
      {
        assert buffer[k] == tasks[k - 1] && tasks[..k] == tasks[..k - 1] + [tasks[k - 1]];
        PushToLocalQueue(buffer[k]);
      }
      assert tasks[..got - 1] == tasks;
      return Some(buffer[0]);
    }

    method TryPickTaskFromLifoSlot() returns (task: Option<Task>)
      modifies this`lifoSlot
      ensures task == old(lifoSlot) && lifoSlot == None
    {
      task := lifoSlot;
      lifoSlot := None;
    }

    /** A batch comes from the front of the global queue; its first task is the result. */
    method TryGrabTasksFromGlobalQueue() returns (task: Option<Task>)
      requires Valid()
      modifies localQueue, localQueue.buffer, globalQueue, coordinator, coordinator.wakeups
      ensures Valid() && lifoSlot == old(lifoSlot)
      ensures task == None <==> old(globalQueue.tasks) == []
      ensures task == None ==> Held() == old(Held())
      ensures task != None ==>
        var q := old(Held());
        var got := Min(GrabAmount(Capacity()), |q.global|);
        task == Some(q.global[0]) && Held() == PushedAll(Queues(q.local, q.global[got..]), Capacity(), q.global[1..got])
    {
      var buffer := new Task[GrabAmount(Capacity())];
      ghost var global := globalQueue.tasks;
      var got := globalQueue.Grab(buffer);
      assert got > 0 ==> buffer[0] == global[0] && buffer[1..got] == global[1..got];
      task := GetFromBuffer(buffer, got);
    }

    /** The other workers' queues. */
    ghost function Others(peers: seq<WorkStealingTaskQueue>): set<WorkStealingTaskQueue> {
      set q | q in peers && q != localQueue
    }

    /** They are valid, and share no memory with this worker's. */
    ghost predicate PeersOk(peers: seq<WorkStealingTaskQueue>)
      reads Others(peers), set q | q in Others(peers) :: q.buffer
    {
      forall q :: q in Others(peers) ==>
        q.Valid() && q.buffer != localQueue.buffer && q.buffer != coordinator.wakeups
    }

    /** The loop over the other workers, up to the first from which something was grabbed. */
    method FillFromPeers(peers: seq<WorkStealingTaskQueue>, buffer: array<Task>) returns (victim: nat, got: nat)
      requires PeersOk(peers) && buffer.Length > 0
      requires forall q :: q in peers ==> buffer != q.buffer
      requires buffer != coordinator.wakeups && buffer != localQueue.buffer
      modifies buffer, Others(peers)`head, Others(peers)`contents
      ensures PeersOk(peers)
      ensures victim <= |peers| && (got > 0 <==> victim < |peers|)
      ensures forall v :: 0 <= v < victim ==> peers[v] == localQueue || old(peers[v].contents) == []
      ensures got > 0 ==>
        && peers[victim] != localQueue && got == Min(buffer.Length, |old(peers[victim].contents)|)
        && buffer[..got] == old(peers[victim].contents)[..got]
        && peers[victim].contents == old(peers[victim].contents)[got..]
      ensures forall q :: q in Others(peers) && !(victim < |peers| && q == peers[victim]) ==>
        q.contents == old(q.contents)
    {
      got, victim := 0, 0;
      while victim < |peers|
        invariant victim <= |peers| && got == 0 && PeersOk(peers)
        invariant forall v :: 0 <= v < victim ==> peers[v] == localQueue || old(peers[v].contents) == []
        invariant forall q :: q in Others(peers) ==> q.contents == old(q.contents)
      {
        if peers[victim] != localQueue {
          got := peers[victim].Grab(buffer, buffer.Length, 0);
          if got > 0 {
            return;
          }
        }
        victim := victim + 1;
      }
    }

    /** Steals from the first other worker that has tasks, and only from it. */
    method TryStealTasks(peers: seq<WorkStealingTaskQueue>) returns (task: Option<Task>, victim: nat)
      requires Valid() && PeersOk(peers)
      modifies localQueue, localQueue.buffer, globalQueue, coordinator, coordinator.wakeups
      modifies Others(peers)`head, Others(peers)`contents
      ensures Valid() && PeersOk(peers) && lifoSlot == old(lifoSlot)
      ensures victim <= |peers| && (task != None <==> victim < |peers|)
      ensures forall v :: 0 <= v < victim ==> peers[v] == localQueue || old(peers[v].contents) == []
      ensures task == None ==> Held() == old(Held())
      ensures task != None ==>
        var stolen := old(peers[victim].contents);
        var got := Min(GrabAmount(Capacity()), |stolen|);
        && peers[victim] != localQueue && stolen != []
        && task == Some(stolen[0]) && peers[victim].contents == stolen[got..]
        && Held() == PushedAll(old(Held()), Capacity(), stolen[1..got])
      ensures forall q :: q in Others(peers) && !(victim < |peers| && q == peers[victim]) ==>
        q.contents == old(q.contents)
    {
      var buffer := new Task[GrabAmount(Capacity())];
      assert forall q :: q in peers ==> buffer != q.buffer;
      var got;
      victim, got := FillFromPeers(peers, buffer);
      assert got > 0 ==>
        buffer[0] == old(peers[victim].contents)[0] && buffer[1..got] == old(peers[victim].contents)[1..got]
      by {
        if got > 0 {
          Tail(buffer[..got], old(peers[victim].contents));
          assert buffer[1..got] == buffer[..got][1..];
        }
      }
      task := GetFromBuffer(buffer, got);
      assert forall q :: q in Others(peers) ==> q.Valid();
    }

    /** A steal into empty queues never overflows. */
    method StealIntoEmpty(peers: seq<WorkStealingTaskQueue>) returns (task: Option<Task>, victim: nat)
      requires Valid() && PeersOk(peers) && Held() == Queues([], [])
      modifies localQueue, localQueue.buffer, globalQueue, coordinator, coordinator.wakeups
      modifies Others(peers)`head, Others(peers)`contents
      ensures Valid() && PeersOk(peers) && victim <= |peers| && lifoSlot == old(lifoSlot)
      ensures task == None ==> Held() == Queues([], []) && forall p :: p in Others(peers) ==> old(p.contents) == []
      ensures task != None ==>
        && victim < |peers| && peers[victim] != localQueue && old(peers[victim].contents) != []
        && task == Some(old(peers[victim].contents)[0])
        && Held() == Queues(Refilled(old(peers[victim].contents), Capacity()).local, [])
        && peers[victim].contents == Refilled(old(peers[victim].contents), Capacity()).global
    {
      task, victim := TryStealTasks(peers);
      if victim < |peers| {
        RefilledIs(old(peers[victim].contents), Capacity());
        RoomForAll([], Capacity(), Refilled(old(peers[victim].contents), Capacity()).local);
      }
    }

    /** The global queue, then the others, for a worker with an empty local queue. */
    method TryGetElsewhere(peers: seq<WorkStealingTaskQueue>) returns (task: Option<Task>, victim: nat)
      requires Valid() && PeersOk(peers) && Held().local == []
      modifies localQueue, localQueue.buffer, globalQueue, coordinator, coordinator.wakeups
      modifies Others(peers)`head, Others(peers)`contents
      ensures Valid() && PeersOk(peers) && victim <= |peers| && lifoSlot == old(lifoSlot)
      ensures old(Held()).global != [] ==>
        task == Some(old(Held()).global[0]) && Held() == Refilled(old(Held()).global, Capacity())
      ensures old(Held()).global == [] && task == None ==>
        Held() == old(Held()) && forall p :: p in Others(peers) ==> old(p.contents) == []
      ensures old(Held()).global == [] && task != None ==>
        && victim < |peers| && peers[victim] != localQueue && old(peers[victim].contents) != []
        && task == Some(old(peers[victim].contents)[0])
        && Held() == Queues(Refilled(old(peers[victim].contents), Capacity()).local, [])
        && peers[victim].contents == Refilled(old(peers[victim].contents), Capacity()).global
    {
      victim := |peers|;
      RefilledIs(globalQueue.tasks, Capacity());
      task := TryGrabTasksFromGlobalQueue();
      if task == None {
        task, victim := StealIntoEmpty(peers);
      }
    }

    /** The slot, unless the chain is used up; then the local queue, the global queue, the others. */
    method TryGetWork(peers: seq<WorkStealingTaskQueue>) returns (task: Option<Task>, victim: nat)
      requires Valid() && PeersOk(peers)
      modifies this`lifoSlot, this`filoChain
      modifies localQueue, localQueue.buffer, globalQueue, coordinator, coordinator.wakeups
      modifies Others(peers)`head, Others(peers)`contents
      ensures Valid() && PeersOk(peers) && victim <= |peers|
      ensures filoChain == (if old(SlotReady()) then old(filoChain) + 1 else 0)
      ensures lifoSlot == (if old(SlotReady()) then None else old(lifoSlot))
      ensures old(SlotReady()) ==> task == old(lifoSlot) && Held() == old(Held())
      ensures !old(SlotReady()) && old(Held()).local != [] ==>
        task == Some(old(Held()).local[0]) && Held() == Queues(old(Held()).local[1..], old(Held()).global)
      ensures !old(SlotReady()) && old(Held()).local == [] && old(Held()).global != [] ==>
        task == Some(old(Held()).global[0]) && Held() == Refilled(old(Held()).global, Capacity())
      ensures task == None ==>
        && !old(SlotReady()) && Held() == old(Held()) == Queues([], [])
        && forall p :: p in Others(peers) ==> old(p.contents) == []
      ensures !old(SlotReady()) && old(Held()) == Queues([], []) && task != None ==>
        && victim < |peers| && peers[victim] != localQueue && old(peers[victim].contents) != []
        && task == Some(old(peers[victim].contents)[0])
        && Held() == Queues(Refilled(old(peers[victim].contents), Capacity()).local, [])
        && peers[victim].contents == Refilled(old(peers[victim].contents), Capacity()).global
    {
      victim := |peers|;
      if filoChain < LIFO_MAX_CHAIN {
        task := TryPickTaskFromLifoSlot();
        if task != None {
          filoChain := filoChain + 1;
          return;
        }
      }
      filoChain := 0;
      var popped, first := localQueue.TryPop(0);
      if popped {
        return Some(first), victim;
      }
      task, victim := TryGetElsewhere(peers);
    }

    ghost predicate SlotReady()
      reads this
    {
      filoChain < LIFO_MAX_CHAIN && lifoSlot != None
    }
  }
}
