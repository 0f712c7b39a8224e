/**
 `Stop` over all runs of `SchedulerMachine`: it reaches every worker, nothing else does, and a worker that has
 been reached and is left alone leaves.
 */
module SchedulerStop {
  import opened Runs
  import opened SchedulerMachine

  // ---------------------------------------------------------------------------------------------
  // How far a `Stop` has got

  predicate Reached(w: Worker) { w.hasStopped && w.stopWoken }

  predicate InStop(o: Outsider) { o.StopStore? || o.StopAdd? || o.StopKick? }

  /** `Stop` has told and woken every worker before its current one, and its current one as far as it says. */
  ghost predicate Told(workers: seq<Worker>, o: Outsider) {
    InStop(o) ==>
      && (forall w :: 0 <= w < o.k && w < |workers| ==> Reached(workers[w]))
      && (!o.StopStore? ==> o.k < |workers| && workers[o.k].hasStopped)
      && (o.StopKick? ==> Reached(workers[o.k]))
  }

  ghost predicate Inv(s: State) {
    s.shared.capacity > 0 && forall j :: 0 <= j < |s.outsiders| ==> Told(s.workers, s.outsiders[j])
  }

  /** Nobody is told to go on after all. */
  ghost predicate NoneUntold(workers: seq<Worker>, workers': seq<Worker>) {
    && |workers'| == |workers|
    && forall w :: 0 <= w < |workers| ==>
      && (workers[w].hasStopped ==> workers'[w].hasStopped)
      && (Reached(workers[w]) ==> Reached(workers'[w]))
  }

  lemma PickKeepsFlags(sh: Shared, i: nat, w: Worker, workers: nat)
    ensures var e := ExecPick(sh, i, w, workers);
      && e.worker.hasStopped == w.hasStopped && e.worker.stopWoken == w.stopWoken
      && e.shared.capacity == sh.capacity
  {
  }

  lemma ExecKeepsFlags(sh: Shared, i: nat, w: Worker, workers: nat, a: Act)
    ensures var e := Exec(sh, i, w, workers, a);
      && e.worker.hasStopped == w.hasStopped && e.worker.stopWoken == w.stopWoken
      && e.shared.capacity == sh.capacity
  {
    if a.Go? && Picking(w.pc) { PickKeepsFlags(sh, i, w, workers); }
  }

  /** A worker tells nobody to stop. */
  lemma WorkerTellsNobody(s: State, i: nat, a: Act)
    requires i < |s.workers|
    ensures var s' := WorkerStep(s, i, a);
      && s'.outsiders == s.outsiders && |s'.workers| == |s.workers| && s'.shared.capacity == s.shared.capacity
      && forall w :: 0 <= w < |s.workers| ==>
           s'.workers[w].hasStopped == s.workers[w].hasStopped && s'.workers[w].stopWoken == s.workers[w].stopWoken
  {
    ExecKeepsFlags(s.shared, i, s.workers[i], |s.workers|, a);
  }

  lemma OutsiderUntellsNobody(s: State, j: nat, a: Act)
    requires j < |s.outsiders|
    ensures NoneUntold(s.workers, OutsiderStep(s, j, a).workers)
    ensures |OutsiderStep(s, j, a).outsiders| == |s.outsiders|
    ensures OutsiderStep(s, j, a).shared.capacity == s.shared.capacity
    ensures forall i :: 0 <= i < |s.outsiders| && i != j ==> OutsiderStep(s, j, a).outsiders[i] == s.outsiders[i]
  {
  }

  lemma ToldStays(workers: seq<Worker>, workers': seq<Worker>, o: Outsider)
    requires Told(workers, o) && NoneUntold(workers, workers')
    ensures Told(workers', o)
  {
  }

  lemma OutsiderTells(s: State, j: nat, a: Act)
    requires Inv(s) && j < |s.outsiders|
    ensures var s' := OutsiderStep(s, j, a); Told(s'.workers, s'.outsiders[j])
  {
    OutsiderUntellsNobody(s, j, a);
    assert Told(s.workers, s.outsiders[j]);
  }

  lemma OutsiderStepKeepsInv(s: State, j: nat, a: Act)
    requires Inv(s) && j < |s.outsiders|
    ensures Inv(OutsiderStep(s, j, a))
  {
    var s' := OutsiderStep(s, j, a);
    OutsiderUntellsNobody(s, j, a);
    OutsiderTells(s, j, a);
    forall i | 0 <= i < |s'.outsiders| ensures Told(s'.workers, s'.outsiders[i]) {
      if i != j { ToldStays(s.workers, s'.workers, s.outsiders[i]); }
    }
  }

  lemma WorkerStepKeepsInv(s: State, i: nat, a: Act)
    requires Inv(s) && i < |s.workers|
    ensures Inv(WorkerStep(s, i, a))
  {
    var s' := WorkerStep(s, i, a);
    WorkerTellsNobody(s, i, a);
    forall j | 0 <= j < |s'.outsiders| ensures Told(s'.workers, s'.outsiders[j]) {
      ToldStays(s.workers, s'.workers, s.outsiders[j]);
    }
  }

  lemma NextKeepsInv(s: State, s': State)
    requires Inv(s) && Next(s, s')
    ensures Inv(s') && NoneUntold(s.workers, s'.workers)
  {
    if i: nat, a :| i < |s.workers| && s' == WorkerStep(s, i, a) {
      WorkerTellsNobody(s, i, a);
      WorkerStepKeepsInv(s, i, a);
    } else {
      var j: nat, a :| j < |s.outsiders| && s' == OutsiderStep(s, j, a);
      OutsiderUntellsNobody(s, j, a);
      OutsiderStepKeepsInv(s, j, a);
    }
  }

  lemma RunKeepsInv(run: seq<State>, i: nat)
    requires IsRun(Init, Next, run) && i < |run|
    ensures Inv(run[i])
  {
    forall s, s' | Inv(s) && Next(s, s') ensures Inv(s') { NextKeepsInv(s, s'); }
    Invariance(Init, Next, Inv, run);
  }

  // ---------------------------------------------------------------------------------------------
  // Over runs

  ghost predicate AllReached(s: State) { forall w :: 0 <= w < |s.workers| ==> Reached(s.workers[w]) }

  /** An outside thread is still inside `Stop`, or everybody has been reached. */
  ghost predicate UnderWay(s: State, j: nat) {
    j < |s.outsiders| && (InStop(s.outsiders[j]) || AllReached(s))
  }

  ghost predicate Linked(s: State, s': State, j: nat) { UnderWay(s, j) ==> UnderWay(s', j) }

  ghost predicate LinkedAt(run: seq<State>, k: int, j: nat) {
    0 <= k && k + 1 < |run| ==> Linked(run[k], run[k + 1], j)
  }

  lemma StopGoesOn(s: State, j: nat, a: Act)
    requires Inv(s) && j < |s.outsiders| && InStop(s.outsiders[j])
    ensures UnderWay(OutsiderStep(s, j, a), j)
  {
    assert Told(s.workers, s.outsiders[j]);
  }

  lemma ReachedStays(s: State, s': State)
    requires AllReached(s) && NoneUntold(s.workers, s'.workers)
    ensures AllReached(s')
  {
  }

  lemma NextLinked(s: State, s': State, j: nat)
    requires Inv(s) && Next(s, s')
    ensures Linked(s, s', j)
  {
    NextKeepsInv(s, s');
    if UnderWay(s, j) {
      if AllReached(s) {
        ReachedStays(s, s');
        SameOutsiders(s, s');
      } else if i: nat, a :| i < |s.workers| && s' == WorkerStep(s, i, a) {
        WorkerTellsNobody(s, i, a);
      } else {
        var i: nat, a :| i < |s.outsiders| && s' == OutsiderStep(s, i, a);
        OutsiderUntellsNobody(s, i, a);
        if i == j { StopGoesOn(s, j, a); }
      }
    }
  }

  lemma SameOutsiders(s: State, s': State)
    requires Next(s, s')
    ensures |s'.outsiders| == |s.outsiders|
  {
    if i: nat, a :| i < |s.workers| && s' == WorkerStep(s, i, a) {
      WorkerTellsNobody(s, i, a);
    }
  }

  lemma {:induction false} Along(run: seq<State>, a: nat, b: nat, j: nat)
    requires forall k :: LinkedAt(run, k, j)
    requires a <= b < |run| && UnderWay(run[a], j)
    ensures UnderWay(run[b], j)
  {
    if a < b {
      Along(run, a, b - 1, j);
      assert LinkedAt(run, b - 1, j);
    }
  }

  /** A `Stop` that is over has told and woken every worker: it started in the step from `run[a]`, and by
      `run[b]` its thread is back. */
  lemma StopReachesAll(run: seq<State>, a: nat, b: nat, j: nat)
    requires IsRun(Init, Next, run) && a < b < |run|
    requires j < |run[a].outsiders| && run[a].outsiders[j].Away? && run[a + 1] == OutsiderStep(run[a], j, StartStop)
    requires j < |run[b].outsiders| && run[b].outsiders[j].Away?
    ensures forall w :: 0 <= w < |run[b].workers| ==> run[b].workers[w].hasStopped && run[b].workers[w].stopWoken
  {
    forall k ensures LinkedAt(run, k, j) {
      if 0 <= k && k + 1 < |run| {
        RunKeepsInv(run, k);
        NextLinked(run[k], run[k + 1], j);
      }
    }
    Along(run, a + 1, b, j);
  }

  // ---------------------------------------------------------------------------------------------
  // Nothing else stops a worker

  ghost predicate StartsStop(s: State, s': State, j: nat) {
    j < |s.outsiders| && s.outsiders[j].Away? && s' == OutsiderStep(s, j, StartStop)
  }

  ghost predicate StartsSomeStop(s: State, s': State) { exists j :: StartsStop(s, s', j) }

  /** Somebody is inside `Stop`, or some worker has been told. */
  ghost predicate Begun(s: State) {
    || (exists j :: 0 <= j < |s.outsiders| && InStop(s.outsiders[j]))
    || (exists w :: 0 <= w < |s.workers| && s.workers[w].hasStopped)
  }

  lemma BegunBefore(s: State, s': State)
    requires Next(s, s') && Begun(s')
    ensures Begun(s) || StartsSomeStop(s, s')
  {
    if i: nat, a :| i < |s.workers| && s' == WorkerStep(s, i, a) {
      WorkerTellsNobody(s, i, a);
    } else {
      var j: nat, a :| j < |s.outsiders| && s' == OutsiderStep(s, j, a);
      if !Begun(s) { OutsiderBegins(s, j, a); }
    }
  }

  lemma OutsiderBegins(s: State, j: nat, a: Act)
    requires j < |s.outsiders| && Begun(OutsiderStep(s, j, a)) && !Begun(s)
    ensures StartsSomeStop(s, OutsiderStep(s, j, a))
  {
    var s' := OutsiderStep(s, j, a);
    OutsiderUntellsNobody(s, j, a);
    assert !InStop(s.outsiders[j]);
    if s.outsiders[j].Away? && a.StartStop? { assert StartsStop(s, s', j); }
  }

  ghost predicate BegunFromAt(run: seq<State>, k: int) {
    0 <= k && k + 1 < |run| && Begun(run[k + 1]) ==> Begun(run[k]) || StartsSomeStop(run[k], run[k + 1])
  }

  lemma {:induction false} BegunAlong(run: seq<State>, i: nat) returns (a: nat, j: nat)
    requires forall k :: BegunFromAt(run, k)
    requires i < |run| && Begun(run[i]) && !Begun(run[0])
    ensures a < i && StartsStop(run[a], run[a + 1], j)
  {
    assert BegunFromAt(run, i - 1);
    if Begun(run[i - 1]) {
      a, j := BegunAlong(run, i - 1);
    } else {
      a := i - 1;
      j :| StartsStop(run[a], run[a + 1], j);
    }
  }

  /** A worker is told to stop only after an outside thread has called `Stop`. */
  lemma StoppedByStop(run: seq<State>, i: nat, w: nat) returns (a: nat, j: nat)
    requires IsRun(Init, Next, run) && i < |run| && w < |run[i].workers| && run[i].workers[w].hasStopped
    ensures a < i && StartsStop(run[a], run[a + 1], j)
  {
    forall k ensures BegunFromAt(run, k) {
      if 0 <= k && k + 1 < |run| && Begun(run[k + 1]) { BegunBefore(run[k], run[k + 1]); }
    }
    a, j := BegunAlong(run, i);
  }

  // ---------------------------------------------------------------------------------------------
  // A worker that is left alone gets somewhere

  function Again(b: bool, cost: nat): nat { if b then cost else 0 }

  function SpreadEffort(n: nat): nat { 5 + 7 * n }

  function ContEffort(k: Cont): nat {
    match k
    case ToSpread(_, rest, _) => SpreadEffort(|rest|)
    case ToPushEnd(_) => 4
    case ToRun(_) => 0
  }

  /** A whole search, once around. */
  function RoundEffort(capacity: nat, workers: nat): nat { SpreadEffort(capacity) + 2 * workers + 20 }

  function Left(v: nat, workers: nat): nat { if v < workers then workers - v else 0 }

  /** A bound on the worker's own steps until it runs a task, sleeps, or has left. */
  function Effort(sh: Shared, w: Worker, workers: nat): nat {
    var found := SpreadEffort(sh.capacity);
    var stale := Again(w.wakeups != w.expected, RoundEffort(sh.capacity, workers));
    match w.pc
    case Run(_) => 0
    case Asleep => 0
    case Exited => 0
    case Exit => 1
    case NotifyKick(_, k) => ContEffort(k) + 1
    case NotifyWake(k) => ContEffort(k) + 2
    case NotifyRead(k) => ContEffort(k) + 3
    case OffloadPush(_, k) => ContEffort(k) + 4
    case OffloadGrab(_, k) => ContEffort(k) + 5
    case PushLocal(_, k) => ContEffort(k) + 6
    case Got(_, _) => 4
    case Spread(_, rest, _) => SpreadEffort(|rest|)
    case Sleep => 1 + stale
    case CheckStop => 2 + stale
    case Steal(second, v) =>
      found + Left(v, workers) + if second then 3 + stale else workers + 9
    case GetGlobal(second) => found + workers + if second then 4 + stale else workers + 10
    case GetLocal(second) => found + workers + if second then 5 + stale else workers + 11
    case GetLifo(second) => found + workers + if second then 6 + stale else workers + 12
    case Park => found + workers + 7 + stale
    case LoadWakeups => found + workers + 8
    case Poll => found + 2 * workers + 13
    case Top => found + 2 * workers + 14
    case Unpark => found + 2 * workers + 13
  }

  lemma PickEffort(sh: Shared, i: nat, w: Worker, workers: nat)
    requires sh.capacity > 0 && Picking(w.pc)
    ensures var e := ExecPick(sh, i, w, workers);
      Effort(e.shared, e.worker, workers) < Effort(sh, w, workers)
  {
    if w.pc.Poll? {
      GrabEffort(sh, w, false, GetLifo(false), workers);
    } else if w.pc.GetGlobal? {
      GrabEffort(sh, w, w.pc.second, Steal(w.pc.second, 0), workers);
    } else if w.pc.Steal? {
      StealEffort(sh, i, w, workers);
    } else if w.pc.Spread? || w.pc.Got? {
      FoundEffort(sh, i, w, workers);
    } else {
      LookEffort(sh, i, w, workers);
    }
  }

  lemma LookEffort(sh: Shared, i: nat, w: Worker, workers: nat)
    requires w.pc.Top? || w.pc.GetLifo? || w.pc.GetLocal?
    ensures var e := ExecPick(sh, i, w, workers);
      Effort(e.shared, e.worker, workers) < Effort(sh, w, workers)
  {
  }

  lemma FoundEffort(sh: Shared, i: nat, w: Worker, workers: nat)
    requires w.pc.Spread? || w.pc.Got?
    ensures var e := ExecPick(sh, i, w, workers);
      Effort(e.shared, e.worker, workers) < Effort(sh, w, workers)
  {
  }

  lemma GrabEffort(sh: Shared, w: Worker, second: bool, otherwise: Pc, workers: nat)
    requires sh.capacity > 0
    requires SpreadEffort(sh.capacity) < Effort(sh, w, workers)
    requires Effort(sh, w.(pc := otherwise), workers) < Effort(sh, w, workers)
    ensures var e := GrabGlobal(sh, w, second, otherwise);
      Effort(e.shared, e.worker, workers) < Effort(sh, w, workers)
  {
    assert GrabAmount(sh.capacity) <= sh.capacity;
  }

  lemma StealEffort(sh: Shared, i: nat, w: Worker, workers: nat)
    requires w.pc.Steal?
    ensures var e := ExecPick(sh, i, w, workers);
      Effort(e.shared, e.worker, workers) < Effort(sh, w, workers)
  {
  }

  lemma ResumeEffort(sh: Shared, w: Worker, k: Cont, workers: nat)
    requires w.pc == Resume(k)
    ensures Effort(sh, w, workers) <= ContEffort(k)
  {
  }

  lemma PushEffort(sh: Shared, i: nat, w: Worker, workers: nat)
    requires Pushing(w.pc)
    ensures var e := ExecPush(sh, i, w);
      Effort(e.shared, e.worker, workers) < Effort(sh, w, workers)
  {
    if w.pc.PushLocal? || w.pc.OffloadGrab? || w.pc.OffloadPush? {
      StoreEffort(sh, i, w, workers);
    } else {
      NotifyEffort(sh, i, w, workers);
    }
  }

  lemma StoreEffort(sh: Shared, i: nat, w: Worker, workers: nat)
    requires w.pc.PushLocal? || w.pc.OffloadGrab? || w.pc.OffloadPush?
    ensures var e := ExecPush(sh, i, w);
      Effort(e.shared, e.worker, workers) < Effort(sh, w, workers)
  {
    var e := ExecPush(sh, i, w);
    if e.worker.pc == Resume(w.pc.k) { ResumeEffort(e.shared, e.worker, w.pc.k, workers); }
  }

  lemma NotifyEffort(sh: Shared, i: nat, w: Worker, workers: nat)
    requires w.pc.NotifyRead? || w.pc.NotifyWake? || w.pc.NotifyKick?
    ensures var e := ExecPush(sh, i, w);
      Effort(e.shared, e.worker, workers) < Effort(sh, w, workers)
  {
    var e := ExecPush(sh, i, w);
    if e.worker.pc == Resume(w.pc.k) { ResumeEffort(e.shared, e.worker, w.pc.k, workers); }
  }

  lemma ParkEffort(sh: Shared, i: nat, w: Worker, workers: nat)
    requires w.pc.LoadWakeups? || w.pc.Park? || w.pc.CheckStop? || w.pc.Sleep? || w.pc.Unpark? || w.pc.Exit?
    ensures var e := ExecPark(sh, i, w);
      Effort(e.shared, e.worker, workers) < Effort(sh, w, workers)
  {
  }

  predicate Resting(pc: Pc) { pc.Run? || pc.Asleep? || pc.Exited? }

  /** A worker that is left alone, in any state of any run, gets to a task, to sleep, or out: every step of its
      own brings it closer. A worker that has been told to stop does not go to sleep. */
  lemma LeftAloneGetsSomewhere(run: seq<State>, i: nat, w: nat)
    requires IsRun(Init, Next, run) && i < |run| && w < |run[i].workers| && !Resting(run[i].workers[w].pc)
    ensures var s, s' := run[i], WorkerStep(run[i], w, Go);
      && Effort(s'.shared, s'.workers[w], |s'.workers|) < Effort(s.shared, s.workers[w], |s.workers|)
      && (s.workers[w].hasStopped && !s.workers[w].pc.Sleep? ==> !s'.workers[w].pc.Sleep? && !s'.workers[w].pc.Asleep?)
  {
    RunKeepsInv(run, i);
    OwnEffort(run[i], w);
    StoppedDoNotSleep(run[i], w);
  }

  lemma StoppedDoNotSleep(s: State, w: nat)
    requires w < |s.workers|
    ensures var pc, pc' := s.workers[w].pc, WorkerStep(s, w, Go).workers[w].pc;
      s.workers[w].hasStopped && !pc.Sleep? && !pc.Asleep? ==> !pc'.Sleep? && !pc'.Asleep?
  {
    if Picking(s.workers[w].pc) { PicksDoNotSleep(s.shared, w, s.workers[w], |s.workers|); }
  }

  lemma PicksDoNotSleep(sh: Shared, i: nat, w: Worker, workers: nat)
    requires Picking(w.pc)
    ensures var pc := ExecPick(sh, i, w, workers).worker.pc; !pc.Sleep? && !pc.Asleep?
  {
  }

  lemma OwnEffort(s: State, w: nat)
    requires s.shared.capacity > 0 && w < |s.workers| && !Resting(s.workers[w].pc)
    ensures var s' := WorkerStep(s, w, Go);
      Effort(s'.shared, s'.workers[w], |s'.workers|) < Effort(s.shared, s.workers[w], |s.workers|)
  {
    if Picking(s.workers[w].pc) {
      PickEffort(s.shared, w, s.workers[w], |s.workers|);
    } else if Waking(s, w) {
      WakeEffort(s, w);
    } else if Pushing(s.workers[w].pc) {
      PushStepEffort(s, w);
    } else {
      ParkEffort(s.shared, w, s.workers[w], |s.workers|);
    }
  }

  lemma WakeEffort(s: State, w: nat)
    requires Waking(s, w)
    ensures var s' := WakeStep(s, w);
      Effort(s'.shared, s'.workers[w], |s'.workers|) < Effort(s.shared, s.workers[w], |s.workers|)
  {
  }

  lemma PushStepEffort(s: State, w: nat)
    requires w < |s.workers| && Pushing(s.workers[w].pc) && !Waking(s, w)
    ensures var s' := WorkerStep(s, w, Go);
      Effort(s'.shared, s'.workers[w], |s'.workers|) < Effort(s.shared, s.workers[w], |s.workers|)
  {
    var e := ExecPush(s.shared, w, s.workers[w]);
    PushEffort(s.shared, w, s.workers[w], |s.workers|);
    PushingDoesNotSleep(s.shared, w, s.workers[w]);
    assert WorkerStep(s, w, Go).workers[w] == e.worker;
  }

  lemma PushingDoesNotSleep(sh: Shared, i: nat, w: Worker)
    requires Pushing(w.pc)
    ensures !ExecPush(sh, i, w).worker.pc.Asleep?
  {
  }
}
