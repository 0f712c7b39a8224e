/**
 The work-stealing scheduler (`Worker`, `Coordinator`, `GlobalTaskQueue`, `ThreadPool`), as a
 transition system: any number of workers, and any number of outside threads that submit tasks or
 stop the pool, interleave step by step.

 A step is one atomic access or one section under the spin lock of the global queue or of the
 coordinator. An operation on a local queue is one step, as `RingCalls.Linearizable` allows; a thief
 takes any number of tasks that fits, because it may have loaded the victim's `tail_` some time ago.
 Futex waits may end spuriously.
 */
module SchedulerMachine {
  import opened Common

  type Task = nat

  const LIFO_MAX_CHAIN: nat := 16
  const POLL_PERIOD: nat := 61

  /** The size of every transfer buffer. */
  function GrabAmount(capacity: nat): nat {
    if capacity / 2 > 1 then capacity / 2 else 1
  }

  datatype Hint = UpToYou | NextTask | Yield

  /** What a worker does after `PushToLocalQueue` or `NotifyOnSubmit` returns. */
  datatype Cont =
    | ToSpread(next: Task, rest: seq<Task>, second: bool)
    | ToPushEnd(current: Task)
    | ToRun(current: Task)

  /** `second` tells the second `TryGetWork` of a parking attempt from the first one. */
  datatype Pc =
    | Top
    | Poll
    | GetLifo(second: bool)
    | GetLocal(second: bool)
    | GetGlobal(second: bool)
    | Steal(second: bool, victim: nat)
    | Spread(next: Task, rest: seq<Task>, second: bool)
    | Got(next: Task, second: bool)
    | LoadWakeups
    | Park
    | CheckStop
    | Sleep
    | Asleep
    | Unpark
    | Exit
    | Exited
    | Run(current: Task)
    | PushLocal(task: Task, k: Cont)
    | OffloadGrab(task: Task, k: Cont)
    | OffloadPush(buffer: seq<Task>, k: Cont)
    | NotifyRead(k: Cont)
    | NotifyWake(k: Cont)
    | NotifyKick(target: nat, k: Cont)

  /** `lifo` has at most one element. `expected` is the value of `wakeups` the worker last loaded.
      `stopWoken` is history: `Stop` has already bumped this worker's `wakeups_`. */
  datatype Worker = Worker(
    pc: Pc, lifo: seq<Task>, chain: nat, iter: nat, local: seq<Task>,
    wakeups: nat, expected: nat, hasStopped: bool, stopWoken: bool)

  /** A thread outside the pool: inside `Submit` or inside `Stop`. */
  datatype Outsider =
    | Away
    | SubmitRead
    | SubmitWake
    | SubmitKick(target: nat)
    | StopStore(k: nat)
    | StopAdd(k: nat)
    | StopKick(k: nat)

  datatype Pusher = Outside | Inside(worker: nat)

  /** An entry of the global queue, with the thread that pushed it last. */
  datatype Entry = Entry(task: Task, pusher: Pusher)

  /** `parked` is the coordinator's list of stopped workers, `approx` its `approximate_size_`;
      `unlinks`, `submitted` and `executed` are history: `unlinks` counts the workers that `Unlink` found
      in the list. */
  datatype Shared = Shared(
    capacity: nat, global: seq<Entry>, parked: seq<nat>, approx: int, unlinks: nat,
    submitted: multiset<Task>, executed: multiset<Task>)

  datatype State = State(shared: Shared, workers: seq<Worker>, outsiders: seq<Outsider>)

  datatype Act =
    | Go
    | StealSome(take: nat)
    | Submit(task: Task, hint: Hint)
    | Finish
    | StartStop

  // ---------------------------------------------------------------------------------------------
  // Steps that touch only the worker itself and the shared queues

  datatype Effect = Effect(shared: Shared, worker: Worker)

  function Resume(k: Cont): Pc {
    match k
    case ToSpread(next, rest, second) => Spread(next, rest, second)
    case ToPushEnd(current) => NotifyRead(ToRun(current))
    case ToRun(current) => Run(current)
  }

  function Without(parked: seq<nat>, i: nat): seq<nat> {
    if parked == [] then []
    else if parked[0] == i then parked[1..]
    else [parked[0]] + Without(parked[1..], i)
  }

  /** `Unlink` removes the worker if it is in the list and leaves the size alone. */
  function Unlink(sh: Shared, i: nat): Shared {
    sh.(parked := Without(sh.parked, i), unlinks := sh.unlinks + if i in sh.parked then 1 else 0)
  }

  function Tasks(entries: seq<Entry>): (r: seq<Task>)
    ensures |r| == |entries|
  {
    if entries == [] then [] else [entries[0].task] + Tasks(entries[1..])
  }

  function Tagged(tasks: seq<Task>, pusher: Pusher): seq<Entry> {
    if tasks == [] then [] else [Entry(tasks[0], pusher)] + Tagged(tasks[1..], pusher)
  }

  /** `GetFromBuffer`: the first task is the result, the others go to the local queue. */
  function FromBuffer(buffer: seq<Task>, second: bool): Pc
    requires buffer != []
  {
    Spread(buffer[0], buffer[1..], second)
  }

  function GrabGlobal(sh: Shared, w: Worker, second: bool, otherwise: Pc): Effect {
    var got := Min(GrabAmount(sh.capacity), |sh.global|);
    if got == 0 then Effect(sh, w.(pc := otherwise))
    else Effect(sh.(global := sh.global[got..]), w.(pc := FromBuffer(Tasks(sh.global[..got]), second)))
  }

  /** A task that is running submits `task` to its own pool: `Worker::Push`. */
  function ExecSubmit(sh: Shared, i: nat, w: Worker, task: Task, hint: Hint): Effect
    requires w.pc.Run?
  {
    var sh1 := sh.(submitted := sh.submitted + multiset{task});
    var current := w.pc.current;
    match hint
    case UpToYou => Effect(sh1, w.(pc := PushLocal(task, ToPushEnd(current))))
    case NextTask =>
      if w.lifo == [] then Effect(sh1, w.(lifo := [task], pc := NotifyRead(ToRun(current))))
      else Effect(sh1, w.(lifo := [task], pc := PushLocal(w.lifo[0], ToPushEnd(current))))
    case Yield =>
      Effect(sh1.(global := sh1.global + [Entry(task, Inside(i))]), w.(pc := NotifyRead(ToRun(current))))
  }

  /** `Work`, `PickTask` and `TryGetWork`. */
  function ExecPick(sh: Shared, i: nat, w: Worker, workers: nat): Effect {
    match w.pc
    case Top =>
      Effect(sh, w.(iter := w.iter + 1, pc := if (w.iter + 1) % POLL_PERIOD == 0 then Poll else GetLifo(false)))
    case Poll => GrabGlobal(sh, w, false, GetLifo(false))
    case GetLifo(second) =>
      if w.chain < LIFO_MAX_CHAIN && w.lifo != [] then
        Effect(sh, w.(chain := w.chain + 1, lifo := w.lifo[1..], pc := Got(w.lifo[0], second)))
      else Effect(sh, w.(chain := 0, pc := GetLocal(second)))
    case GetLocal(second) =>
      if w.local != [] then Effect(sh, w.(local := w.local[1..], pc := Got(w.local[0], second)))
      else Effect(sh, w.(pc := GetGlobal(second)))
    case GetGlobal(second) => GrabGlobal(sh, w, second, Steal(second, 0))
    case Steal(second, v) =>
      if v >= workers then Effect(sh, w.(pc := if second then CheckStop else LoadWakeups))
      else Effect(sh, w.(pc := Steal(second, v + 1)))
    case Spread(next, rest, second) =>
      if rest == [] then Effect(sh, w.(pc := Got(next, second)))
      else Effect(sh, w.(pc := PushLocal(rest[0], ToSpread(next, rest[1..], second))))
    case Got(next, second) =>
      Effect(if second then Unlink(sh, i) else sh, w.(pc := NotifyRead(ToRun(next))))
    case _ => Effect(sh, w)
  }

  /** The parking protocol. */
  function ExecPark(sh: Shared, i: nat, w: Worker): Effect {
    match w.pc
    case LoadWakeups => Effect(sh, w.(expected := w.wakeups, pc := Park))
    case Park =>
      var sh1 := if i in sh.parked then sh else sh.(approx := sh.approx + 1, parked := sh.parked + [i]);
      Effect(sh1, w.(pc := GetLifo(true)))
    case CheckStop => Effect(sh, w.(pc := if w.hasStopped then Exit else Sleep))
    case Sleep => Effect(sh, w.(pc := if w.wakeups == w.expected then Asleep else Unpark))
    case Asleep => Effect(sh, w.(pc := Unpark))
    case Unpark => Effect(Unlink(sh, i), w.(pc := GetLifo(false)))
    case Exit => Effect(Unlink(sh, i), w.(pc := Exited))
    case _ => Effect(sh, w)
  }

  /** `PushToLocalQueue`, `OffloadTasksToGlobalQueue` and the size test of `NotifyOnSubmit`. */
  function ExecPush(sh: Shared, i: nat, w: Worker): Effect {
    match w.pc
    case PushLocal(task, k) =>
      if |w.local| < sh.capacity then Effect(sh, w.(local := w.local + [task], pc := Resume(k)))
      else Effect(sh, w.(pc := OffloadGrab(task, k)))
    case OffloadGrab(task, k) =>
      var got := Min(GrabAmount(sh.capacity) - 1, |w.local|);
      Effect(sh, w.(local := w.local[got..], pc := OffloadPush(w.local[..got] + [task], k)))
    case OffloadPush(buffer, k) =>
      Effect(sh.(global := sh.global + Tagged(buffer, Inside(i))), w.(pc := NotifyRead(k)))
    case NotifyRead(k) =>
      Effect(sh, w.(pc := if sh.approx > 0 then NotifyWake(k) else Resume(k)))
    case NotifyWake(k) => Effect(sh, w.(pc := Resume(k)))
    case NotifyKick(_, k) => Effect(sh.(approx := sh.approx - 1), w.(pc := Resume(k)))
    case _ => Effect(sh, w)
  }

  predicate Picking(pc: Pc) {
    pc.Top? || pc.Poll? || pc.GetLifo? || pc.GetLocal? || pc.GetGlobal? || pc.Steal? || pc.Spread? || pc.Got?
  }

  predicate Pushing(pc: Pc) {
    pc.PushLocal? || pc.OffloadGrab? || pc.OffloadPush? || pc.NotifyRead? || pc.NotifyWake? || pc.NotifyKick?
  }

  function Exec(sh: Shared, i: nat, w: Worker, workers: nat, a: Act): Effect {
    match a
    case Submit(task, hint) => if w.pc.Run? then ExecSubmit(sh, i, w, task, hint) else Effect(sh, w)
    case Finish =>
      if w.pc.Run? then Effect(sh.(executed := sh.executed + multiset{w.pc.current}), w.(pc := Top)) else Effect(sh, w)
    case StartStop => Effect(sh, w)
    case StealSome(_) => Effect(sh, w)
    case Go =>
      if Picking(w.pc) then ExecPick(sh, i, w, workers)
      else if Pushing(w.pc) then ExecPush(sh, i, w)
      else ExecPark(sh, i, w)
  }

  // ---------------------------------------------------------------------------------------------
  // Steps that touch another worker

  /** `WakeWorker` up to the bump of the woken worker's `wakeups_`. */
  function Bump(workers: seq<Worker>, target: nat): seq<Worker> {
    if target < |workers| then workers[target := workers[target].(wakeups := workers[target].wakeups + 1)] else workers
  }

  /** The futex wake: it ends the wait if the worker is waiting. */
  function Kick(workers: seq<Worker>, target: nat): seq<Worker> {
    if target < |workers| && workers[target].pc.Asleep? then workers[target := workers[target].(pc := Unpark)]
    else workers
  }

  /** Worker `i` is at a victim from which `take` tasks fit into its buffer. */
  predicate Stealing(s: State, i: nat, take: nat) {
    && i < |s.workers| && s.workers[i].pc.Steal?
    && s.workers[i].pc.victim < |s.workers| && s.workers[i].pc.victim != i
    && 0 < take <= Min(GrabAmount(s.shared.capacity), |s.workers[s.workers[i].pc.victim].local|)
  }

  function StealStep(s: State, i: nat, take: nat): State
    requires Stealing(s, i, take)
  {
    var me := s.workers[i];
    var victim := s.workers[me.pc.victim];
    var workers := s.workers[me.pc.victim := victim.(local := victim.local[take..])];
    s.(workers := workers[i := me.(pc := FromBuffer(victim.local[..take], me.pc.second))])
  }

  predicate Waking(s: State, i: nat) {
    i < |s.workers| && s.workers[i].pc.NotifyWake? && s.shared.parked != []
  }

  /** `WakeWorker` takes the longest parked worker out of the list and bumps it. */
  function WakeStep(s: State, i: nat): State
    requires Waking(s, i)
  {
    var me := s.workers[i];
    var target := s.shared.parked[0];
    State(s.shared.(parked := s.shared.parked[1..]),
          Bump(s.workers[i := me.(pc := NotifyKick(target, me.pc.k))], target), s.outsiders)
  }

  function WorkerStep(s: State, i: nat, a: Act): State
    requires i < |s.workers|
  {
    var me := s.workers[i];
    if a.StealSome? && Stealing(s, i, a.take) then StealStep(s, i, a.take)
    else if a.Go? && Waking(s, i) then WakeStep(s, i)
    else
      var e := Exec(s.shared, i, me, |s.workers|, a);
      var workers := s.workers[i := e.worker];
      State(e.shared, if a.Go? && me.pc.NotifyKick? then Kick(workers, me.pc.target) else workers, s.outsiders)
  }

  function OutsiderStep(s: State, j: nat, a: Act): State
    requires j < |s.outsiders|
  {
    var sh := s.shared;
    match s.outsiders[j]
    case Away =>
      (match a
       case Submit(task, _) =>
         State(sh.(global := sh.global + [Entry(task, Outside)], submitted := sh.submitted + multiset{task}),
               s.workers, s.outsiders[j := SubmitRead])
       case StartStop => s.(outsiders := s.outsiders[j := StopStore(0)])
       case _ => s)
    case SubmitRead => s.(outsiders := s.outsiders[j := if sh.approx > 0 then SubmitWake else Away])
    case SubmitWake =>
      if sh.parked == [] then s.(outsiders := s.outsiders[j := Away])
      else State(sh.(parked := sh.parked[1..]), Bump(s.workers, sh.parked[0]),
                 s.outsiders[j := SubmitKick(sh.parked[0])])
    case SubmitKick(target) =>
      State(sh.(approx := sh.approx - 1), Kick(s.workers, target), s.outsiders[j := Away])
    case StopStore(k) =>
      if k >= |s.workers| then s.(outsiders := s.outsiders[j := Away])
      else s.(workers := s.workers[k := s.workers[k].(hasStopped := true)], outsiders := s.outsiders[j := StopAdd(k)])
    case StopAdd(k) =>
      if k >= |s.workers| then s
      else s.(workers := s.workers[k := s.workers[k].(wakeups := s.workers[k].wakeups + 1, stopWoken := true)],
              outsiders := s.outsiders[j := StopKick(k)])
    case StopKick(k) =>
      s.(workers := Kick(s.workers, k), outsiders := s.outsiders[j := StopStore(k + 1)])
  }

  ghost predicate Init(s: State) {
    && s.shared.capacity > 0
    && s.shared == Shared(s.shared.capacity, [], [], 0, 0, multiset{}, multiset{})
    && (forall i :: 0 <= i < |s.workers| ==> s.workers[i] == Worker(Top, [], 0, 0, [], 0, 0, false, false))
    && (forall j :: 0 <= j < |s.outsiders| ==> s.outsiders[j] == Away)
  }

  ghost predicate Next(s: State, s': State) {
    || (exists i: nat, a :: i < |s.workers| && s' == WorkerStep(s, i, a))
    || (exists j: nat, a :: j < |s.outsiders| && s' == OutsiderStep(s, j, a))
  }
}
