/**
 Where tasks go: the small steps of a worker in `SchedulerMachine` put them where the operations of
 `SchedulerWorker` do, and the histories of the machine are exactly what was submitted and executed.
 */
module SchedulerPlacement {
  import opened Common
  import SchedulerConservation
  import opened SchedulerMachine
  import opened SchedulerWorker

  // ---------------------------------------------------------------------------------------------
  // What a worker is about to do with the tasks in its hands

  function Current(sh: Shared, w: SchedulerMachine.Worker): Queues { Queues(w.local, Tasks(sh.global)) }

  function AfterCont(k: Cont, q: Queues, capacity: nat): Queues {
    match k
    case ToSpread(_, rest, _) => PushedAll(q, capacity, rest)
    case _ => q
  }

  /** The local and the global queue once the worker has placed what it holds, if nobody interferes. */
  function Eventually(sh: Shared, w: SchedulerMachine.Worker): Queues {
    var q := Current(sh, w);
    match w.pc
    case Spread(_, rest, _) => PushedAll(q, sh.capacity, rest)
    case PushLocal(task, k) => AfterCont(k, Pushed(q, sh.capacity, task), sh.capacity)
    case OffloadGrab(task, k) =>
      var got := Min(GrabAmount(sh.capacity) - 1, |w.local|);
      AfterCont(k, Queues(w.local[got..], q.global + (w.local[..got] + [task])), sh.capacity)
    case OffloadPush(buffer, k) => AfterCont(k, Queues(w.local, q.global + buffer), sh.capacity)
    case NotifyRead(k) => AfterCont(k, q, sh.capacity)
    case NotifyWake(k) => AfterCont(k, q, sh.capacity)
    case NotifyKick(_, k) => AfterCont(k, q, sh.capacity)
    case _ => q
  }

  // ---------------------------------------------------------------------------------------------
  // The steps of `Push` and `GetFromBuffer`

  lemma TasksOf(a: seq<Entry>, tasks: seq<Task>, pusher: Pusher)
    ensures Tasks(a + Tagged(tasks, pusher)) == Tasks(a) + tasks
  {
    SchedulerConservation.TasksConcat(a, Tagged(tasks, pusher));
    SchedulerConservation.TasksTagged(tasks, pusher);
  }

  /** Pushing a buffer is pushing its first task and then the others. */
  lemma {:induction false} PushedFirst(q: Queues, capacity: nat, tasks: seq<Task>)
    requires tasks != []
    ensures PushedAll(q, capacity, tasks) == PushedAll(Pushed(q, capacity, tasks[0]), capacity, tasks[1..])
  {
    var front := tasks[..|tasks| - 1];
    if |tasks| > 1 {
      PushedFirst(q, capacity, front);
      assert tasks[1..][..|tasks| - 2] == front[1..];
    } else {
      assert front == [] && tasks[1..] == [];
    }
  }

  predicate Placing(pc: Pc) { Pushing(pc) || pc.Spread? }

  lemma ResumePlaces(sh: Shared, w: SchedulerMachine.Worker, k: Cont)
    requires w.pc == Resume(k)
    ensures Eventually(sh, w) == AfterCont(k, Current(sh, w), sh.capacity)
  {
  }

  lemma SpreadPlaces(sh: Shared, i: nat, w: SchedulerMachine.Worker, workers: nat)
    requires w.pc.Spread?
    ensures var e := ExecPick(sh, i, w, workers); Eventually(e.shared, e.worker) == Eventually(sh, w)
  {
    var q, rest := Current(sh, w), w.pc.rest;
    if rest != [] {
      var w' := w.(pc := PushLocal(rest[0], ToSpread(w.pc.next, rest[1..], w.pc.second)));
      assert ExecPick(sh, i, w, workers) == SchedulerMachine.Effect(sh, w');
      PushedFirst(q, sh.capacity, rest);
      assert Eventually(sh, w') == PushedAll(Pushed(q, sh.capacity, rest[0]), sh.capacity, rest[1..]);
    }
  }

  lemma StoreLocalPlaces(sh: Shared, i: nat, w: SchedulerMachine.Worker)
    requires w.pc.PushLocal?
    ensures var e := ExecPush(sh, i, w); Eventually(e.shared, e.worker) == Eventually(sh, w)
  {
    var e := ExecPush(sh, i, w);
    if |w.local| < sh.capacity { ResumePlaces(e.shared, e.worker, w.pc.k); }
  }

  lemma OffloadPlaces(sh: Shared, i: nat, w: SchedulerMachine.Worker)
    requires w.pc.OffloadGrab? || w.pc.OffloadPush?
    ensures var e := ExecPush(sh, i, w); Eventually(e.shared, e.worker) == Eventually(sh, w)
  {
    if w.pc.OffloadPush? { TasksOf(sh.global, w.pc.buffer, Inside(i)); }
  }

  lemma NotifyPlaces(sh: Shared, i: nat, w: SchedulerMachine.Worker)
    requires w.pc.NotifyRead? || w.pc.NotifyWake? || w.pc.NotifyKick?
    ensures var e := ExecPush(sh, i, w); Eventually(e.shared, e.worker) == Eventually(sh, w)
  {
    var e := ExecPush(sh, i, w);
    if e.worker.pc == Resume(w.pc.k) { ResumePlaces(e.shared, e.worker, w.pc.k); }
  }

  lemma WakePlaces(s: State, i: nat)
    requires Waking(s, i)
    ensures var s' := WakeStep(s, i);
      && Eventually(s'.shared, s'.workers[i]) == Eventually(s.shared, s.workers[i])
      && s'.workers[i].lifo == s.workers[i].lifo
  {
  }

  lemma PlacingLeavesLifo(sh: Shared, i: nat, w: SchedulerMachine.Worker, workers: nat)
    requires Placing(w.pc)
    ensures var w' := Exec(sh, i, w, workers, Go).worker; w'.lifo == w.lifo && !w'.pc.Asleep?
  {
  }

  lemma ExecPlaces(sh: Shared, i: nat, w: SchedulerMachine.Worker, workers: nat)
    requires Placing(w.pc)
    ensures var e := Exec(sh, i, w, workers, Go); Eventually(e.shared, e.worker) == Eventually(sh, w)
  {
    if w.pc.Spread? {
      SpreadPlaces(sh, i, w, workers);
    } else if w.pc.PushLocal? {
      StoreLocalPlaces(sh, i, w);
    } else if w.pc.OffloadGrab? || w.pc.OffloadPush? {
      OffloadPlaces(sh, i, w);
    } else {
      NotifyPlaces(sh, i, w);
    }
  }

  /** Whoever places tasks puts them where it set out to: no step of its own changes that, and the LIFO slot
      is not touched on the way. */
  lemma PlacingKeepsCourse(s: State, i: nat)
    requires i < |s.workers| && Placing(s.workers[i].pc)
    ensures var s' := WorkerStep(s, i, Go);
      && Eventually(s'.shared, s'.workers[i]) == Eventually(s.shared, s.workers[i])
      && s'.workers[i].lifo == s.workers[i].lifo
  {
    if Waking(s, i) {
      WakePlaces(s, i);
    } else {
      ExecPlaces(s.shared, i, s.workers[i], |s.workers|);
      PlacingLeavesLifo(s.shared, i, s.workers[i], |s.workers|);
      assert WorkerStep(s, i, Go).workers[i] == Exec(s.shared, i, s.workers[i], |s.workers|, Go).worker;
    }
  }

  /** A task that is running submits another one: it will be where `Worker::Push` puts it. */
  lemma SubmitSetsOut(sh: Shared, i: nat, w: SchedulerMachine.Worker, task: Task, hint: Hint)
    requires w.pc.Run? && |w.lifo| <= 1
    ensures var e, q := ExecSubmit(sh, i, w, task, hint), Current(sh, w);
      var slot := if w.lifo == [] then None else Some(w.lifo[0]);
      match hint
      case UpToYou => Eventually(e.shared, e.worker) == Pushed(q, sh.capacity, task) && e.worker.lifo == w.lifo
      case NextTask => Eventually(e.shared, e.worker) == Displaced(slot, q, sh.capacity) && e.worker.lifo == [task]
      case Yield => Eventually(e.shared, e.worker) == Queues(q.local, q.global + [task]) && e.worker.lifo == w.lifo
  {
    TasksOf(sh.global, [task], Inside(i));
    assert Tagged([task], Inside(i)) == [Entry(task, Inside(i))];
  }

  /** A batch is half of a local queue, rounded down, but never nothing. */
  lemma BatchIsHalf(capacity: nat)
    requires capacity > 0
    ensures 0 < GrabAmount(capacity) <= capacity
    ensures capacity > 1 ==> 2 * GrabAmount(capacity) <= capacity <= 2 * GrabAmount(capacity) + 1
  {
  }

  /** A worker that takes a batch out of the global queue keeps the first task, and the others will be in its
      local queue, in order; with an empty local queue, that is `Refilled`. */
  lemma GrabSetsOut(sh: Shared, w: SchedulerMachine.Worker, second: bool, otherwise: Pc)
    requires sh.capacity > 0 && sh.global != []
    ensures var e := GrabGlobal(sh, w, second, otherwise);
      var global, got := Tasks(sh.global), Min(GrabAmount(sh.capacity), |sh.global|);
      && e.worker.pc.Spread? && e.worker.pc.next == global[0]
      && Eventually(e.shared, e.worker) == PushedAll(Queues(w.local, global[got..]), sh.capacity, global[1..got])
      && (w.local == [] ==> Eventually(e.shared, e.worker) == Refilled(global, sh.capacity))
  {
    var got := Min(GrabAmount(sh.capacity), |sh.global|);
    TasksSplit(sh.global, got);
    assert Tasks(sh.global)[..got][1..] == Tasks(sh.global)[1..got];
    RefilledIs(Tasks(sh.global), sh.capacity);
  }

  lemma TasksSplit(entries: seq<Entry>, n: nat)
    requires n <= |entries|
    ensures Tasks(entries[..n]) == Tasks(entries)[..n] && Tasks(entries[n..]) == Tasks(entries)[n..]
  {
    SchedulerConservation.TasksConcat(entries[..n], entries[n..]);
    assert entries == entries[..n] + entries[n..];
  }

  /** A thief keeps the first task it takes, and the others will be in its local queue, in order. */
  lemma StealSetsOut(s: State, i: nat, take: nat)
    requires Stealing(s, i, take)
    ensures var s', v := StealStep(s, i, take), s.workers[i].pc.victim;
      var from, me := s.workers[v].local, s.workers[i];
      && s'.workers[v].local == from[take..]
      && s'.workers[i].pc.Spread? && s'.workers[i].pc.next == from[0]
      && Eventually(s'.shared, s'.workers[i])
         == PushedAll(Current(s.shared, me), s.shared.capacity, from[1..take])
  {
    var from := s.workers[s.workers[i].pc.victim].local;
    assert from[..take][1..] == from[1..take];
  }

  // ---------------------------------------------------------------------------------------------
  // The histories

  /** The tasks a worker's step submits and finishes. */
  function SubmittedBy(w: SchedulerMachine.Worker, a: Act): multiset<Task> {
    if a.Submit? && w.pc.Run? then multiset{a.task} else multiset{}
  }

  function FinishedBy(w: SchedulerMachine.Worker, a: Act): multiset<Task> {
    if a.Finish? && w.pc.Run? then multiset{w.pc.current} else multiset{}
  }

  lemma PickSubmitsNothing(sh: Shared, i: nat, w: SchedulerMachine.Worker, workers: nat)
    ensures var e := ExecPick(sh, i, w, workers);
      e.shared.submitted == sh.submitted && e.shared.executed == sh.executed
  {
  }

  /** `submitted` and `executed` are what running tasks submit and what has run. */
  lemma WorkerIsRecorded(s: State, i: nat, a: Act)
    requires i < |s.workers|
    ensures var s' := WorkerStep(s, i, a);
      && s'.shared.submitted == s.shared.submitted + SubmittedBy(s.workers[i], a)
      && s'.shared.executed == s.shared.executed + FinishedBy(s.workers[i], a)
  {
    if a.Go? && Picking(s.workers[i].pc) { PickSubmitsNothing(s.shared, i, s.workers[i], |s.workers|); }
  }

  /** A task that an outside thread submits is recorded, and goes to the back of the global queue. */
  lemma OutsiderIsRecorded(s: State, j: nat, a: Act)
    requires j < |s.outsiders|
    ensures var s' := OutsiderStep(s, j, a);
      && s'.shared.executed == s.shared.executed
      && if s.outsiders[j].Away? && a.Submit? then
           && s'.shared.submitted == s.shared.submitted + multiset{a.task}
           && s'.shared.global == s.shared.global + [Entry(a.task, Outside)] && !s'.outsiders[j].Away?
         else s'.shared.submitted == s.shared.submitted && s'.shared.global == s.shared.global
  {
  }
}
