/**
 Task conservation in the work-stealing scheduler: at every moment of every run each submitted task
 has been executed or is in exactly one place, and no transfer buffer overflows.
 */
module SchedulerConservation {
  import opened Common
  import opened Counting
  import opened Runs
  import opened SchedulerMachine

  /** Tasks in the hands of a continuation or of the program counter; a running task counts. */
  function ContTasks(k: Cont, x: Task): nat {
    match k
    case ToSpread(next, rest, _) => One(next == x) + Occ(rest, x)
    case ToPushEnd(current) => One(current == x)
    case ToRun(current) => One(current == x)
  }

  function PcTasks(pc: Pc, x: Task): nat {
    match pc
    case Spread(next, rest, _) => One(next == x) + Occ(rest, x)
    case Got(next, _) => One(next == x)
    case Run(current) => One(current == x)
    case PushLocal(task, k) => One(task == x) + ContTasks(k, x)
    case OffloadGrab(task, k) => One(task == x) + ContTasks(k, x)
    case OffloadPush(buffer, k) => Occ(buffer, x) + ContTasks(k, x)
    case NotifyRead(k) => ContTasks(k, x)
    case NotifyWake(k) => ContTasks(k, x)
    case NotifyKick(_, k) => ContTasks(k, x)
    case _ => 0
  }

  function Has(w: Worker, x: Task): nat {
    Occ(w.lifo, x) + Occ(w.local, x) + PcTasks(w.pc, x)
  }

  function Total(workers: seq<Worker>, x: Task): nat {
    if workers == [] then 0 else Has(workers[0], x) + Total(workers[1..], x)
  }

  lemma {:induction false} TotalUpdate(workers: seq<Worker>, i: nat, w: Worker, x: Task)
    requires i < |workers|
    ensures Total(workers[i := w], x) + Has(workers[i], x) == Total(workers, x) + Has(w, x)
  {
    if i > 0 {
      TotalUpdate(workers[1..], i - 1, w, x);
      assert workers[i := w][1..] == workers[1..][i - 1 := w];
    } else {
      assert workers[0 := w][1..] == workers[1..];
    }
  }

  function Global(sh: Shared, x: Task): nat {
    Occ(Tasks(sh.global), x)
  }

  /** Everything that has been submitted is executed, running, queued or in transfer. */
  ghost predicate Conserved(s: State, x: Task) {
    s.shared.submitted[x] == s.shared.executed[x] + Total(s.workers, x) + Global(s.shared, x)
  }

  // ---------------------------------------------------------------------------------------------
  // Sequences

  lemma {:induction false} TasksConcat(a: seq<Entry>, b: seq<Entry>)
    ensures Tasks(a + b) == Tasks(a) + Tasks(b)
  {
    if a == [] {
      assert a + b == b;
    } else {
      TasksConcat(a[1..], b);
      assert (a + b)[1..] == a[1..] + b;
    }
  }

  lemma {:induction false} TasksTagged(tasks: seq<Task>, pusher: Pusher)
    ensures Tasks(Tagged(tasks, pusher)) == tasks
  {
    if tasks != [] {
      TasksTagged(tasks[1..], pusher);
      assert Tagged(tasks, pusher)[1..] == Tagged(tasks[1..], pusher);
    }
  }

  lemma OccSplit(s: seq<Task>, k: nat, x: Task)
    requires k <= |s|
    ensures Occ(s, x) == Occ(s[..k], x) + Occ(s[k..], x)
  {
    assert s == s[..k] + s[k..];
    OccConcat(s[..k], s[k..], x);
  }

  lemma GlobalSplit(global: seq<Entry>, k: nat, x: Task)
    requires k <= |global|
    ensures Occ(Tasks(global), x) == Occ(Tasks(global[..k]), x) + Occ(Tasks(global[k..]), x)
  {
    assert global == global[..k] + global[k..];
    TasksConcat(global[..k], global[k..]);
    OccConcat(Tasks(global[..k]), Tasks(global[k..]), x);
  }

  lemma GlobalGrows(global: seq<Entry>, tasks: seq<Task>, pusher: Pusher, x: Task)
    ensures Occ(Tasks(global + Tagged(tasks, pusher)), x) == Occ(Tasks(global), x) + Occ(tasks, x)
  {
    TasksConcat(global, Tagged(tasks, pusher));
    TasksTagged(tasks, pusher);
    OccConcat(Tasks(global), tasks, x);
  }

  lemma GlobalGrowsOne(global: seq<Entry>, task: Task, pusher: Pusher, x: Task)
    ensures Occ(Tasks(global + [Entry(task, pusher)]), x) == Occ(Tasks(global), x) + One(task == x)
  {
    assert Tagged([task], pusher) == [Entry(task, pusher)];
    GlobalGrows(global, [task], pusher, x);
  }

  // ---------------------------------------------------------------------------------------------
  // Steps

  /** What a step adds to the submitted tasks it adds to what is executed, held or queued. */
  ghost predicate Balanced(sh: Shared, w: Worker, e: Effect, x: Task) {
    e.shared.submitted[x] + sh.executed[x] + Has(w, x) + Global(sh, x)
    == sh.submitted[x] + e.shared.executed[x] + Has(e.worker, x) + Global(e.shared, x)
  }

  /** A step that moves tasks only within the worker. */
  ghost predicate Quiet(sh: Shared, w: Worker, e: Effect, x: Task) {
    && e.shared.global == sh.global && e.shared.submitted == sh.submitted && e.shared.executed == sh.executed
    && Has(e.worker, x) == Has(w, x)
  }

  lemma FromBufferHas(buffer: seq<Task>, second: bool, x: Task)
    requires buffer != []
    ensures PcTasks(FromBuffer(buffer, second), x) == Occ(buffer, x)
  {
    OccFirst(buffer, x);
  }

  lemma ResumeHas(k: Cont, x: Task)
    ensures PcTasks(Resume(k), x) == ContTasks(k, x)
  {
  }

  lemma GrabBalanced(sh: Shared, w: Worker, second: bool, otherwise: Pc, x: Task)
    requires PcTasks(w.pc, x) == 0 == PcTasks(otherwise, x)
    ensures Balanced(sh, w, GrabGlobal(sh, w, second, otherwise), x)
  {
    var got := Min(GrabAmount(sh.capacity), |sh.global|);
    GlobalSplit(sh.global, got, x);
    if got > 0 { FromBufferHas(Tasks(sh.global[..got]), second, x); }
  }

  lemma LifoQuiet(sh: Shared, i: nat, w: Worker, workers: nat, x: Task)
    requires w.pc.GetLifo?
    ensures Quiet(sh, w, ExecPick(sh, i, w, workers), x)
  {
    if w.lifo != [] { OccFirst(w.lifo, x); }
  }

  lemma LocalQuiet(sh: Shared, i: nat, w: Worker, workers: nat, x: Task)
    requires w.pc.GetLocal?
    ensures Quiet(sh, w, ExecPick(sh, i, w, workers), x)
  {
    if w.local != [] { OccFirst(w.local, x); }
  }

  lemma SpreadQuiet(sh: Shared, i: nat, w: Worker, workers: nat, x: Task)
    requires w.pc.Spread?
    ensures Quiet(sh, w, ExecPick(sh, i, w, workers), x)
  {
    if w.pc.rest != [] { OccFirst(w.pc.rest, x); }
  }

  lemma GotQuiet(sh: Shared, i: nat, w: Worker, workers: nat, x: Task)
    requires w.pc.Got?
    ensures Quiet(sh, w, ExecPick(sh, i, w, workers), x)
  {
  }

  lemma PickBalanced(sh: Shared, i: nat, w: Worker, workers: nat, x: Task)
    requires Picking(w.pc)
    ensures Balanced(sh, w, ExecPick(sh, i, w, workers), x)
  {
    if w.pc.Poll? {
      GrabBalanced(sh, w, false, GetLifo(false), x);
    } else if w.pc.GetGlobal? {
      GrabBalanced(sh, w, w.pc.second, Steal(w.pc.second, 0), x);
    } else if w.pc.GetLifo? {
      LifoQuiet(sh, i, w, workers, x);
    } else if w.pc.GetLocal? {
      LocalQuiet(sh, i, w, workers, x);
    } else if w.pc.Spread? {
      SpreadQuiet(sh, i, w, workers, x);
    } else if w.pc.Got? {
      GotQuiet(sh, i, w, workers, x);
    }
  }

  lemma OffloadGrabQuiet(sh: Shared, i: nat, w: Worker, x: Task)
    requires w.pc.OffloadGrab?
    ensures Quiet(sh, w, ExecPush(sh, i, w), x)
  {
    var got := Min(GrabAmount(sh.capacity) - 1, |w.local|);
    OccSplit(w.local, got, x);
    OccConcat(w.local[..got], [w.pc.task], x);
    OccSingle(w.pc.task, x);
  }

  lemma OffloadPushBalanced(sh: Shared, i: nat, w: Worker, x: Task)
    requires w.pc.OffloadPush?
    ensures Balanced(sh, w, ExecPush(sh, i, w), x)
  {
    GlobalGrows(sh.global, w.pc.buffer, Inside(i), x);
    var e := ExecPush(sh, i, w);
    assert e.shared.submitted == sh.submitted && e.shared.executed == sh.executed;
    assert PcTasks(e.worker.pc, x) == ContTasks(w.pc.k, x);
  }

  lemma PushLocalQuiet(sh: Shared, i: nat, w: Worker, x: Task)
    requires w.pc.PushLocal?
    ensures Quiet(sh, w, ExecPush(sh, i, w), x)
  {
    ResumeHas(w.pc.k, x);
    OccConcat(w.local, [w.pc.task], x);
    OccSingle(w.pc.task, x);
  }

  lemma PushBalanced(sh: Shared, i: nat, w: Worker, x: Task)
    requires Pushing(w.pc)
    ensures Balanced(sh, w, ExecPush(sh, i, w), x)
  {
    if w.pc.OffloadGrab? {
      OffloadGrabQuiet(sh, i, w, x);
    } else if w.pc.OffloadPush? {
      OffloadPushBalanced(sh, i, w, x);
    } else if w.pc.PushLocal? {
      PushLocalQuiet(sh, i, w, x);
    } else {
      ResumeHas(w.pc.k, x);
    }
  }

  lemma NextTaskBalanced(sh: Shared, i: nat, w: Worker, task: Task, x: Task)
    requires w.pc.Run? && |w.lifo| <= 1
    ensures Balanced(sh, w, ExecSubmit(sh, i, w, task, NextTask), x)
  {
    OccSingle(task, x);
    if w.lifo != [] {
      assert w.lifo == [w.lifo[0]];
      OccSingle(w.lifo[0], x);
    }
  }

  lemma UpToYouBalanced(sh: Shared, i: nat, w: Worker, task: Task, x: Task)
    requires w.pc.Run?
    ensures Balanced(sh, w, ExecSubmit(sh, i, w, task, UpToYou), x)
  {
  }

  lemma YieldBalanced(sh: Shared, i: nat, w: Worker, task: Task, x: Task)
    requires w.pc.Run?
    ensures Balanced(sh, w, ExecSubmit(sh, i, w, task, Yield), x)
  {
    GlobalGrowsOne(sh.global, task, Inside(i), x);
  }

  lemma SubmitBalanced(sh: Shared, i: nat, w: Worker, task: Task, hint: Hint, x: Task)
    requires w.pc.Run? && |w.lifo| <= 1
    ensures Balanced(sh, w, ExecSubmit(sh, i, w, task, hint), x)
  {
    match hint
    case UpToYou => UpToYouBalanced(sh, i, w, task, x);
    case NextTask => NextTaskBalanced(sh, i, w, task, x);
    case Yield => YieldBalanced(sh, i, w, task, x);
  }

  lemma FinishBalanced(sh: Shared, i: nat, w: Worker, workers: nat, x: Task)
    requires w.pc.Run?
    ensures Balanced(sh, w, Exec(sh, i, w, workers, Finish), x)
  {
  }

  lemma ParkQuiet(sh: Shared, i: nat, w: Worker, x: Task)
    requires !Picking(w.pc) && !Pushing(w.pc)
    ensures Quiet(sh, w, ExecPark(sh, i, w), x)
  {
  }

  lemma GoBalanced(sh: Shared, i: nat, w: Worker, workers: nat, x: Task)
    ensures Balanced(sh, w, Exec(sh, i, w, workers, Go), x)
  {
    if Picking(w.pc) {
      PickBalanced(sh, i, w, workers, x);
    } else if Pushing(w.pc) {
      PushBalanced(sh, i, w, x);
    } else {
      ParkQuiet(sh, i, w, x);
    }
  }

  lemma ExecBalanced(sh: Shared, i: nat, w: Worker, workers: nat, a: Act, x: Task)
    requires |w.lifo| <= 1
    ensures Balanced(sh, w, Exec(sh, i, w, workers, a), x)
  {
    match a
    case Submit(task, hint) => if w.pc.Run? { SubmitBalanced(sh, i, w, task, hint, x); }
    case Finish => if w.pc.Run? { FinishBalanced(sh, i, w, workers, x); }
    case StartStop =>
    case StealSome(_) =>
    case Go => GoBalanced(sh, i, w, workers, x);
  }

  lemma KickConserves(workers: seq<Worker>, target: nat, x: Task)
    ensures Total(Kick(workers, target), x) == Total(workers, x)
  {
    if target < |workers| && workers[target].pc.Asleep? {
      TotalUpdate(workers, target, workers[target].(pc := Unpark), x);
    }
  }

  lemma BumpConserves(workers: seq<Worker>, target: nat, x: Task)
    ensures Total(Bump(workers, target), x) == Total(workers, x)
  {
    if target < |workers| {
      TotalUpdate(workers, target, workers[target].(wakeups := workers[target].wakeups + 1), x);
    }
  }

  lemma StealConserves(s: State, i: nat, take: nat, x: Task)
    requires Stealing(s, i, take)
    ensures Total(StealStep(s, i, take).workers, x) == Total(s.workers, x)
  {
    var me := s.workers[i];
    var victim := s.workers[me.pc.victim];
    var robbed := victim.(local := victim.local[take..]);
    var mid := s.workers[me.pc.victim := robbed];
    OccSplit(victim.local, take, x);
    TotalUpdate(s.workers, me.pc.victim, robbed, x);
    TotalUpdate(mid, i, me.(pc := FromBuffer(victim.local[..take], me.pc.second)), x);
  }

  /** The step of `WakeWorker` that bumps the woken worker's `wakeups_`. */
  lemma WakeConserves(s: State, i: nat, x: Task)
    requires Waking(s, i)
    ensures Total(WakeStep(s, i).workers, x) == Total(s.workers, x)
  {
    var me := s.workers[i];
    var target := s.shared.parked[0];
    var me' := me.(pc := NotifyKick(target, me.pc.k));
    TotalUpdate(s.workers, i, me', x);
    BumpConserves(s.workers[i := me'], target, x);
  }

  lemma OwnStepConserves(s: State, i: nat, a: Act, x: Task)
    requires i < |s.workers| && |s.workers[i].lifo| <= 1 && Conserved(s, x)
    requires !(a.StealSome? && Stealing(s, i, a.take)) && !(a.Go? && Waking(s, i))
    ensures Conserved(WorkerStep(s, i, a), x)
  {
    var me := s.workers[i];
    var e := Exec(s.shared, i, me, |s.workers|, a);
    ExecBalanced(s.shared, i, me, |s.workers|, a, x);
    TotalUpdate(s.workers, i, e.worker, x);
    if me.pc.NotifyKick? { KickConserves(s.workers[i := e.worker], me.pc.target, x); }
  }

  lemma WorkerStepConserves(s: State, i: nat, a: Act, x: Task)
    requires i < |s.workers| && |s.workers[i].lifo| <= 1 && Conserved(s, x)
    ensures Conserved(WorkerStep(s, i, a), x)
  {
    if a.StealSome? && Stealing(s, i, a.take) {
      StealConserves(s, i, a.take, x);
    } else if a.Go? && Waking(s, i) {
      WakeConserves(s, i, x);
    } else {
      OwnStepConserves(s, i, a, x);
    }
  }

  lemma StopFlagConserves(s: State, j: nat, a: Act, x: Task)
    requires j < |s.outsiders| && s.outsiders[j].StopStore?
    ensures Total(OutsiderStep(s, j, a).workers, x) == Total(s.workers, x)
    ensures OutsiderStep(s, j, a).shared == s.shared
  {
    var k := s.outsiders[j].k;
    if k < |s.workers| { TotalUpdate(s.workers, k, s.workers[k].(hasStopped := true), x); }
  }

  lemma StopAddConserves(s: State, j: nat, a: Act, x: Task)
    requires j < |s.outsiders| && s.outsiders[j].StopAdd?
    ensures Total(OutsiderStep(s, j, a).workers, x) == Total(s.workers, x)
    ensures OutsiderStep(s, j, a).shared == s.shared
  {
    var k := s.outsiders[j].k;
    if k < |s.workers| {
      TotalUpdate(s.workers, k, s.workers[k].(wakeups := s.workers[k].wakeups + 1, stopWoken := true), x);
    }
  }

  lemma OutsiderStepConserves(s: State, j: nat, a: Act, x: Task)
    requires j < |s.outsiders| && Conserved(s, x)
    ensures Conserved(OutsiderStep(s, j, a), x)
  {
    var o := s.outsiders[j];
    if o.Away? {
      if a.Submit? { GlobalGrowsOne(s.shared.global, a.task, Outside, x); }
    } else if o.SubmitWake? {
      if s.shared.parked != [] { BumpConserves(s.workers, s.shared.parked[0], x); }
    } else if o.SubmitKick? {
      KickConserves(s.workers, o.target, x);
    } else if o.StopKick? {
      KickConserves(s.workers, o.k, x);
    } else if o.StopStore? {
      StopFlagConserves(s, j, a, x);
    } else if o.StopAdd? {
      StopAddConserves(s, j, a, x);
    }
  }

  // ---------------------------------------------------------------------------------------------
  // Capacities

  function GrabLimit(sh: Shared): nat { GrabAmount(sh.capacity) }

  predicate ContFits(sh: Shared, k: Cont) {
    k.ToSpread? ==> 1 + |k.rest| <= GrabLimit(sh)
  }

  /** Queues, the LIFO slot and the transfer buffers stay within their sizes. */
  predicate Fits(sh: Shared, w: Worker) {
    && |w.lifo| <= 1
    && |w.local| <= sh.capacity
    && match w.pc
       case Spread(_, rest, _) => 1 + |rest| <= GrabLimit(sh)
       case PushLocal(_, k) => ContFits(sh, k)
       case OffloadGrab(_, k) => ContFits(sh, k)
       case OffloadPush(buffer, k) => |buffer| <= GrabLimit(sh) && ContFits(sh, k)
       case NotifyRead(k) => ContFits(sh, k)
       case NotifyWake(k) => ContFits(sh, k)
       case NotifyKick(_, k) => ContFits(sh, k)
       case _ => true
  }

  ghost predicate AllFit(s: State) {
    forall i :: 0 <= i < |s.workers| ==> Fits(s.shared, s.workers[i])
  }

  lemma PickFits(sh: Shared, i: nat, w: Worker, workers: nat)
    requires Fits(sh, w) && Picking(w.pc)
    ensures ExecPick(sh, i, w, workers).shared.capacity == sh.capacity
    ensures Fits(sh, ExecPick(sh, i, w, workers).worker)
  {
  }

  lemma PushFits(sh: Shared, i: nat, w: Worker)
    requires Fits(sh, w) && Pushing(w.pc)
    ensures ExecPush(sh, i, w).shared.capacity == sh.capacity
    ensures Fits(sh, ExecPush(sh, i, w).worker)
  {
  }

  lemma ExecFits(sh: Shared, i: nat, w: Worker, workers: nat, a: Act)
    requires Fits(sh, w)
    ensures Exec(sh, i, w, workers, a).shared.capacity == sh.capacity
    ensures Fits(sh, Exec(sh, i, w, workers, a).worker)
  {
    if !a.Go? {
    } else if Picking(w.pc) {
      PickFits(sh, i, w, workers);
    } else if Pushing(w.pc) {
      PushFits(sh, i, w);
    }
  }

  lemma KickBumpFit(sh: Shared, workers: seq<Worker>, target: nat)
    requires forall i :: 0 <= i < |workers| ==> Fits(sh, workers[i])
    ensures forall i :: 0 <= i < |workers| ==> Fits(sh, Kick(workers, target)[i]) && Fits(sh, Bump(workers, target)[i])
  {
  }

  lemma StealFits(s: State, i: nat, take: nat)
    requires AllFit(s) && Stealing(s, i, take)
    ensures AllFit(StealStep(s, i, take))
  {
    assert Fits(s.shared, s.workers[s.workers[i].pc.victim]);
    assert Fits(s.shared, s.workers[i]);
  }

  lemma UpdateFits(sh: Shared, sh': Shared, workers: seq<Worker>, i: nat, workers': seq<Worker>)
    requires |workers'| == |workers| && i < |workers| && sh'.capacity == sh.capacity && Fits(sh', workers'[i])
    requires forall j :: 0 <= j < |workers| ==> Fits(sh, workers[j]) && (j != i ==> workers'[j] == workers[j])
    ensures forall j :: 0 <= j < |workers'| ==> Fits(sh', workers'[j])
  {
    forall j | 0 <= j < |workers'| ensures Fits(sh', workers'[j]) {
      assert Fits(sh, workers[j]);
    }
  }

  lemma OwnStepFits(s: State, i: nat, a: Act)
    requires AllFit(s) && i < |s.workers|
    requires !(a.StealSome? && Stealing(s, i, a.take)) && !(a.Go? && Waking(s, i))
    ensures AllFit(WorkerStep(s, i, a))
  {
    var me := s.workers[i];
    var e := Exec(s.shared, i, me, |s.workers|, a);
    ExecFits(s.shared, i, me, |s.workers|, a);
    UpdateFits(s.shared, e.shared, s.workers, i, s.workers[i := e.worker]);
    if me.pc.NotifyKick? { KickBumpFit(e.shared, s.workers[i := e.worker], me.pc.target); }
  }

  lemma WorkerStepFits(s: State, i: nat, a: Act)
    requires AllFit(s) && i < |s.workers|
    ensures AllFit(WorkerStep(s, i, a))
  {
    var me := s.workers[i];
    assert Fits(s.shared, me);
    if a.StealSome? && Stealing(s, i, a.take) {
      StealFits(s, i, a.take);
    } else if a.Go? && Waking(s, i) {
      KickBumpFit(s.shared, s.workers[i := me.(pc := NotifyKick(s.shared.parked[0], me.pc.k))], s.shared.parked[0]);
    } else {
      OwnStepFits(s, i, a);
    }
  }

  lemma OutsiderStepFits(s: State, j: nat, a: Act)
    requires AllFit(s) && j < |s.outsiders|
    ensures AllFit(OutsiderStep(s, j, a))
  {
    var s' := OutsiderStep(s, j, a);
    assert s'.shared.capacity == s.shared.capacity;
    forall v | 0 <= v < |s'.workers| ensures Fits(s'.shared, s'.workers[v]) {
      assert Fits(s.shared, s.workers[v]);
    }
  }

  lemma StepFits(s: State, s': State)
    requires AllFit(s) && Next(s, s')
    ensures AllFit(s')
  {
    if i: nat, a :| i < |s.workers| && s' == WorkerStep(s, i, a) {
      WorkerStepFits(s, i, a);
    } else {
      var j: nat, a :| j < |s.outsiders| && s' == OutsiderStep(s, j, a);
      OutsiderStepFits(s, j, a);
    }
  }

  // ---------------------------------------------------------------------------------------------
  // Results

  ghost predicate Inv(s: State) {
    AllFit(s) && forall x :: Conserved(s, x)
  }

  lemma NextKeepsInv(s: State, s': State)
    requires Inv(s) && Next(s, s')
    ensures Inv(s')
  {
    StepFits(s, s');
    forall x ensures Conserved(s', x) {
      if i: nat, a :| i < |s.workers| && s' == WorkerStep(s, i, a) {
        WorkerStepConserves(s, i, a, x);
      } else {
        var j: nat, a :| j < |s.outsiders| && s' == OutsiderStep(s, j, a);
        OutsiderStepConserves(s, j, a, x);
      }
    }
  }

  lemma {:induction false} NobodyHas(workers: seq<Worker>, x: Task)
    requires forall i :: 0 <= i < |workers| ==> workers[i] == Worker(Top, [], 0, 0, [], 0, 0, false, false)
    ensures Total(workers, x) == 0
  {
    if workers != [] { NobodyHas(workers[1..], x); }
  }

  lemma RunKeepsInv(run: seq<State>, i: nat)
    requires IsRun(Init, Next, run) && i < |run|
    ensures Inv(run[i])
  {
    forall s | Init(s) ensures Inv(s) {
      forall x ensures Conserved(s, x) { NobodyHas(s.workers, x); }
    }
    forall s, s' | Inv(s) && Next(s, s') ensures Inv(s') { NextKeepsInv(s, s'); }
    Invariance(Init, Next, Inv, run);
  }

  /** No task is lost and none runs twice, through overflow, grabs and steals. */
  lemma TasksConserved(run: seq<State>, i: nat, x: Task)
    requires IsRun(Init, Next, run) && i < |run|
    ensures run[i].shared.submitted[x]
            == run[i].shared.executed[x] + Total(run[i].workers, x) + Occ(Tasks(run[i].shared.global), x)
  {
    RunKeepsInv(run, i);
    assert Conserved(run[i], x);
  }

  /** Buffer indices stay in range: an overflowing worker writes at most `kGrabAmount` entries, a
      grab hands over at most as many, and a local queue never exceeds its capacity. */
  lemma BuffersFit(run: seq<State>, i: nat, w: nat)
    requires IsRun(Init, Next, run) && i < |run| && w < |run[i].workers|
    ensures |run[i].workers[w].local| <= run[i].shared.capacity && |run[i].workers[w].lifo| <= 1
    ensures var pc := run[i].workers[w].pc;
      && (pc.OffloadPush? ==> |pc.buffer| <= GrabAmount(run[i].shared.capacity))
      && (pc.Spread? ==> 1 + |pc.rest| <= GrabAmount(run[i].shared.capacity))
  {
    RunKeepsInv(run, i);
    assert Fits(run[i].shared, run[i].workers[w]);
  }
}
