/**
 Parking in the work-stealing scheduler: no wakeup is lost, no stop is missed, and workers leave
 nothing behind.

 The argument is Dekker's: a worker links itself into the coordinator's list and then looks at all
 queues again before it sleeps, and a submitter pushes and then looks at the list.
 */
module SchedulerParking {
  import opened Counting
  import opened Runs
  import SchedulerConservation
  import opened SchedulerMachine

  // ---------------------------------------------------------------------------------------------
  // Phases of a worker

  /** Linked, and looking at the queues for the second time or about to sleep. */
  predicate Parking(pc: Pc) {
    match pc
    case GetLifo(second) => second
    case GetLocal(second) => second
    case GetGlobal(second) => second
    case Steal(second, _) => second
    case CheckStop => true
    case Sleep => true
    case Asleep => true
    case _ => false
  }

  /** The second look found the LIFO slot, the local queue and the global queue empty. */
  predicate PastCheck(pc: Pc) {
    match pc
    case Steal(second, _) => second
    case CheckStop => true
    case Sleep => true
    case Asleep => true
    case Exit => true
    case Exited => true
    case _ => false
  }

  predicate Leaving(pc: Pc) { pc.Exit? || pc.Exited? }

  /** On the way to sleep, or out, with nothing left to change its mind. */
  predicate Settled(w: Worker) {
    PastCheck(w.pc) && (Leaving(w.pc) || w.wakeups == w.expected)
  }

  /** The first and second `TryGetWork` reset the chain before they look past the LIFO slot, so the
      second one always looks into the slot. */
  predicate ChainReset(pc: Pc) {
    pc.GetLocal? || pc.GetGlobal? || pc.Steal? || pc.LoadWakeups? || pc.Park? || (pc.GetLifo? && pc.second)
  }

  ghost predicate WorkerOk(w: Worker) {
    && w.expected <= w.wakeups
    && (Leaving(w.pc) || w.stopWoken ==> w.hasStopped)
    && (ChainReset(w.pc) ==> w.chain == 0)
    && (PastCheck(w.pc) || w.pc == GetGlobal(true) || w.pc == GetLocal(true) ==> w.lifo == [])
    && (PastCheck(w.pc) || w.pc == GetGlobal(true) ==> w.local == [])
    && (w.stopWoken && (w.pc.Sleep? || w.pc.Asleep?) ==> w.wakeups != w.expected)
  }

  ghost predicate Linked(sh: Shared, i: nat, w: Worker) {
    Parking(w.pc) && w.wakeups == w.expected ==> i in sh.parked
  }

  ghost predicate Untagged(sh: Shared, i: nat, w: Worker) {
    PastCheck(w.pc) ==> forall e :: e in sh.global ==> e.pusher != Inside(i)
  }

  ghost predicate Ok(sh: Shared, i: nat, w: Worker) {
    WorkerOk(w) && Linked(sh, i, w) && Untagged(sh, i, w)
  }

  // ---------------------------------------------------------------------------------------------
  // Pending wakes

  function WorkerKicks(workers: seq<Worker>): nat {
    if workers == [] then 0 else One(workers[0].pc.NotifyKick?) + WorkerKicks(workers[1..])
  }

  function OutsiderKicks(outsiders: seq<Outsider>): nat {
    if outsiders == [] then 0 else One(outsiders[0].SubmitKick?) + OutsiderKicks(outsiders[1..])
  }

  lemma {:induction false} WorkerKicksUpdate(workers: seq<Worker>, i: nat, w: Worker)
    requires i < |workers|
    ensures WorkerKicks(workers[i := w]) + One(workers[i].pc.NotifyKick?)
            == WorkerKicks(workers) + One(w.pc.NotifyKick?)
  {
    if i > 0 {
      WorkerKicksUpdate(workers[1..], i - 1, w);
      assert workers[i := w][1..] == workers[1..][i - 1 := w];
    } else {
      assert workers[0 := w][1..] == workers[1..];
    }
  }

  lemma {:induction false} OutsiderKicksUpdate(outsiders: seq<Outsider>, j: nat, o: Outsider)
    requires j < |outsiders|
    ensures OutsiderKicks(outsiders[j := o]) + One(outsiders[j].SubmitKick?)
            == OutsiderKicks(outsiders) + One(o.SubmitKick?)
  {
    if j > 0 {
      OutsiderKicksUpdate(outsiders[1..], j - 1, o);
      assert outsiders[j := o][1..] == outsiders[1..][j - 1 := o];
    } else {
      assert outsiders[0 := o][1..] == outsiders[1..];
    }
  }

  lemma KickBumpKicks(workers: seq<Worker>, target: nat)
    ensures WorkerKicks(Kick(workers, target)) == WorkerKicks(workers)
    ensures WorkerKicks(Bump(workers, target)) == WorkerKicks(workers)
  {
    if target < |workers| {
      WorkerKicksUpdate(workers, target, workers[target].(pc := Unpark));
      WorkerKicksUpdate(workers, target, workers[target].(wakeups := workers[target].wakeups + 1));
    }
  }

  /** Somebody has bumped worker `i`'s `wakeups_` and still owes it the futex wake. */
  ghost predicate KickDue(s: State, i: nat) {
    || (exists v :: 0 <= v < |s.workers| && s.workers[v].pc.NotifyKick? && s.workers[v].pc.target == i)
    || (exists j :: 0 <= j < |s.outsiders| && OwesKick(s.outsiders[j], i))
  }

  predicate OwesKick(o: Outsider, i: nat) {
    (o.SubmitKick? && o.target == i) || (o.StopKick? && o.k == i)
  }

  predicate Submitting(o: Outsider) { o.SubmitRead? || o.SubmitWake? }

  predicate InsideSubmit(o: Outsider) { Submitting(o) || o.SubmitKick? }

  ghost predicate StopBegun(s: State) {
    exists i :: 0 <= i < |s.workers| && s.workers[i].hasStopped
  }

  // ---------------------------------------------------------------------------------------------
  // The invariant

  ghost predicate AllOk(s: State) {
    forall i :: 0 <= i < |s.workers| ==> Ok(s.shared, i, s.workers[i])
  }

  /** `approximate_size_` is ahead of the list by one for each wake that is under way and for each worker
      that `Unlink` has ever removed. */
  ghost predicate SizeOk(s: State) {
    && s.shared.approx == |s.shared.parked| + WorkerKicks(s.workers) + OutsiderKicks(s.outsiders) + s.shared.unlinks
    && (forall i :: i in s.shared.parked ==> i < |s.workers|)
    && (forall e :: e in s.shared.global && e.pusher.Inside? ==> e.pusher.worker < |s.workers|)
  }

  /** A worker asleep on an outdated value is about to be woken. */
  ghost predicate WakesDue(s: State) {
    forall i :: 0 <= i < |s.workers| && s.workers[i].pc.Asleep? && s.workers[i].wakeups != s.workers[i].expected
                ==> KickDue(s, i)
  }

  /** While the global queue is not empty, a worker will look at it again or a submitter is still
      going to wake one. */
  ghost predicate NothingForgotten(s: State) {
    s.shared.global != [] && !StopBegun(s) && |s.workers| > 0 ==>
      || (exists i :: 0 <= i < |s.workers| && !Settled(s.workers[i]))
      || (exists j :: 0 <= j < |s.outsiders| && Submitting(s.outsiders[j]))
  }

  /** `Stop` sets a worker's flag before it wakes the worker. */
  ghost predicate StopsInOrder(s: State) {
    forall j :: 0 <= j < |s.outsiders| && (s.outsiders[j].StopAdd? || s.outsiders[j].StopKick?) ==>
      s.outsiders[j].k < |s.workers| && s.workers[s.outsiders[j].k].hasStopped
  }

  ghost predicate Inv(s: State) {
    AllOk(s) && SizeOk(s) && WakesDue(s) && NothingForgotten(s) && StopsInOrder(s)
  }

  // ---------------------------------------------------------------------------------------------
  // Sequences

  lemma {:induction false} WithoutOthers(parked: seq<nat>, i: nat, j: nat)
    ensures j != i && j in parked ==> j in Without(parked, i)
    ensures j in Without(parked, i) ==> j in parked
    ensures |Without(parked, i)| + One(i in parked) == |parked|
  {
    if parked != [] {
      WithoutOthers(parked[1..], i, j);
      assert parked == [parked[0]] + parked[1..];
    }
  }

  lemma {:induction false} TaggedBy(tasks: seq<Task>, pusher: Pusher)
    ensures forall e :: e in Tagged(tasks, pusher) ==> e.pusher == pusher
  {
    if tasks != [] { TaggedBy(tasks[1..], pusher); }
  }

  // ---------------------------------------------------------------------------------------------
  // What one worker does to itself and to the shared queues

  /** A step by worker `i` unlinks at most `i` and tags what it pushes with `i`. */
  ghost predicate Polite(sh: Shared, sh': Shared, i: nat) {
    && (forall u :: u != i && u in sh.parked ==> u in sh'.parked)
    && (forall u :: u in sh'.parked ==> u in sh.parked || u == i)
    && (forall e :: e in sh'.global ==> e in sh.global || e.pusher == Inside(i))
  }

  /** How far the size is ahead of the list, effective calls of `Unlink` aside. */
  function Ahead(sh: Shared): int { sh.approx - |sh.parked| - sh.unlinks }

  lemma ParkPolite(sh: Shared, i: nat, w: Worker)
    ensures Polite(sh, ExecPark(sh, i, w).shared, i)
    ensures Ahead(ExecPark(sh, i, w).shared) == Ahead(sh)
  {
    WithoutOthers(sh.parked, i, i);
    forall u ensures u != i && u in sh.parked ==> u in Without(sh.parked, i)
             ensures u in Without(sh.parked, i) ==> u in sh.parked {
      WithoutOthers(sh.parked, i, u);
    }
  }

  lemma PickPolite(sh: Shared, i: nat, w: Worker, workers: nat)
    ensures Polite(sh, ExecPick(sh, i, w, workers).shared, i)
    ensures Ahead(ExecPick(sh, i, w, workers).shared) == Ahead(sh)
  {
    WithoutOthers(sh.parked, i, i);
    forall u ensures u != i && u in sh.parked ==> u in Without(sh.parked, i)
             ensures u in Without(sh.parked, i) ==> u in sh.parked {
      WithoutOthers(sh.parked, i, u);
    }
  }

  lemma PushPolite(sh: Shared, i: nat, w: Worker)
    ensures Polite(sh, ExecPush(sh, i, w).shared, i)
    ensures Ahead(ExecPush(sh, i, w).shared) + One(w.pc.NotifyKick?) == Ahead(sh)
  {
    if w.pc.OffloadPush? { TaggedBy(w.pc.buffer, Inside(i)); }
  }

  lemma ExecPolite(sh: Shared, i: nat, w: Worker, workers: nat, a: Act)
    ensures Polite(sh, Exec(sh, i, w, workers, a).shared, i)
    ensures Ahead(Exec(sh, i, w, workers, a).shared) + One(a.Go? && w.pc.NotifyKick?) == Ahead(sh)
  {
    if !a.Go? {
    } else if Picking(w.pc) {
      PickPolite(sh, i, w, workers);
    } else if Pushing(w.pc) {
      PushPolite(sh, i, w);
    } else {
      ParkPolite(sh, i, w);
    }
  }

  lemma PickOk(sh: Shared, i: nat, w: Worker, workers: nat)
    requires Picking(w.pc) && Ok(sh, i, w)
    ensures Ok(ExecPick(sh, i, w, workers).shared, i, ExecPick(sh, i, w, workers).worker)
  {
    if w.pc.Poll? || w.pc.GetGlobal? { GrabOk(sh, i, w, workers); }
    else if w.pc.GetLifo? || w.pc.GetLocal? { TakeOk(sh, i, w, workers); }
  }

  lemma GrabOk(sh: Shared, i: nat, w: Worker, workers: nat)
    requires (w.pc.Poll? || w.pc.GetGlobal?) && Ok(sh, i, w)
    ensures Ok(ExecPick(sh, i, w, workers).shared, i, ExecPick(sh, i, w, workers).worker)
  {
  }

  lemma TakeOk(sh: Shared, i: nat, w: Worker, workers: nat)
    requires (w.pc.GetLifo? || w.pc.GetLocal?) && Ok(sh, i, w)
    ensures Ok(ExecPick(sh, i, w, workers).shared, i, ExecPick(sh, i, w, workers).worker)
  {
  }

  lemma ParkOk(sh: Shared, i: nat, w: Worker)
    requires Ok(sh, i, w)
    ensures Ok(ExecPark(sh, i, w).shared, i, ExecPark(sh, i, w).worker)
  {
  }

  predicate Busy(pc: Pc) { Pushing(pc) || pc.Spread? || pc.Run? }

  lemma PushStaysBusy(sh: Shared, i: nat, w: Worker)
    requires Pushing(w.pc)
    ensures var w' := ExecPush(sh, i, w).worker;
      && Busy(w'.pc) && w'.wakeups == w.wakeups && w'.expected == w.expected
      && w'.hasStopped == w.hasStopped && w'.stopWoken == w.stopWoken
  {
  }

  lemma BusyOk(sh: Shared, i: nat, w: Worker)
    requires Busy(w.pc) && w.expected <= w.wakeups && (w.stopWoken ==> w.hasStopped)
    ensures Ok(sh, i, w) && !PastCheck(w.pc)
  {
  }

  lemma PushOk(sh: Shared, i: nat, w: Worker)
    requires Pushing(w.pc) && Ok(sh, i, w)
    ensures Ok(ExecPush(sh, i, w).shared, i, ExecPush(sh, i, w).worker)
    ensures !PastCheck(ExecPush(sh, i, w).worker.pc)
  {
    PushStaysBusy(sh, i, w);
    BusyOk(ExecPush(sh, i, w).shared, i, ExecPush(sh, i, w).worker);
  }

  lemma ExecOk(sh: Shared, i: nat, w: Worker, workers: nat, a: Act)
    requires Ok(sh, i, w)
    ensures Ok(Exec(sh, i, w, workers, a).shared, i, Exec(sh, i, w, workers, a).worker)
  {
    if !a.Go? {
    } else if Picking(w.pc) {
      PickOk(sh, i, w, workers);
    } else if Pushing(w.pc) {
      PushOk(sh, i, w);
    } else {
      ParkOk(sh, i, w);
    }
  }

  /** What picking and pushing never do: fall asleep, leave, or bump somebody. */
  lemma PickAwake(sh: Shared, i: nat, w: Worker, workers: nat)
    requires Picking(w.pc)
    ensures var pc := ExecPick(sh, i, w, workers).worker.pc;
      !pc.Asleep? && !pc.Sleep? && !Leaving(pc) && !pc.NotifyKick?
    ensures var e := ExecPick(sh, i, w, workers);
      e.worker.wakeups == w.wakeups && e.worker.expected == w.expected && e.worker.hasStopped == w.hasStopped
  {
  }

  lemma PushAwake(sh: Shared, i: nat, w: Worker)
    requires Pushing(w.pc)
    ensures var pc := ExecPush(sh, i, w).worker.pc; !PastCheck(pc) && !pc.NotifyKick?
    ensures var e := ExecPush(sh, i, w); e.worker.wakeups == w.wakeups && e.worker.hasStopped == w.hasStopped
  {
  }

  lemma ParkSettles(sh: Shared, i: nat, w: Worker)
    requires !Picking(w.pc) && !Pushing(w.pc)
    ensures var e := ExecPark(sh, i, w);
      && e.shared.global == sh.global
      && !e.worker.pc.NotifyKick?
      && e.worker.wakeups == w.wakeups && e.worker.hasStopped == w.hasStopped
      && (Settled(e.worker) ==> Settled(w) || w.hasStopped)
      && (e.worker.pc.Asleep? ==> e.worker.expected == e.worker.wakeups)
  {
  }

  /** A worker settles only by finding the global queue empty, or by leaving after a stop. */
  lemma ExecSettles(sh: Shared, i: nat, w: Worker, workers: nat, a: Act)
    requires Settled(Exec(sh, i, w, workers, a).worker)
    ensures Exec(sh, i, w, workers, a).shared.global == sh.global
    ensures sh.global == [] || Settled(w) || w.hasStopped
  {
    if a.Go? {
      if Picking(w.pc) {
        PickAwake(sh, i, w, workers);
      } else if Pushing(w.pc) {
        PushAwake(sh, i, w);
      } else {
        ParkSettles(sh, i, w);
      }
    }
  }

  /** Flags are kept, sleep starts only on the current value, and kicks start only in `WakeWorker`. */
  lemma ExecFlags(sh: Shared, i: nat, w: Worker, workers: nat, a: Act)
    ensures Exec(sh, i, w, workers, a).worker.wakeups == w.wakeups
    ensures Exec(sh, i, w, workers, a).worker.hasStopped == w.hasStopped
    ensures Exec(sh, i, w, workers, a).worker.pc.Asleep? ==>
              || Exec(sh, i, w, workers, a).worker.expected == Exec(sh, i, w, workers, a).worker.wakeups
              || Exec(sh, i, w, workers, a).worker == w
    ensures Exec(sh, i, w, workers, a).worker.pc.NotifyKick? ==> !a.Go? && Exec(sh, i, w, workers, a).worker == w
  {
    if a.Go? {
      if Picking(w.pc) {
        PickAwake(sh, i, w, workers);
      } else if Pushing(w.pc) {
        PushAwake(sh, i, w);
      } else {
        ParkSettles(sh, i, w);
      }
    }
  }

  // ---------------------------------------------------------------------------------------------
  // Bumps and kicks

  lemma OkElsewhere(sh: Shared, sh': Shared, i: nat, u: nat, w: Worker)
    requires Ok(sh, u, w) && Polite(sh, sh', i) && u != i
    ensures Ok(sh', u, w)
  {
  }

  lemma BumpOk(sh: Shared, sh': Shared, workers: seq<Worker>, target: nat)
    requires forall i :: 0 <= i < |workers| ==> Ok(sh, i, workers[i])
    requires sh'.global == sh.global && (forall u :: u in sh.parked && u != target ==> u in sh'.parked)
    ensures forall i :: 0 <= i < |workers| ==> Ok(sh', i, Bump(workers, target)[i])
  {
  }

  lemma KickOk(sh: Shared, workers: seq<Worker>, target: nat)
    requires forall i :: 0 <= i < |workers| ==> Ok(sh, i, workers[i])
    ensures forall i :: 0 <= i < |workers| ==> Ok(sh, i, Kick(workers, target)[i])
  {
  }

  /** Without a stop, settled workers are linked, so an empty list means an unsettled worker. */
  lemma SomebodyUnsettled(s: State)
    requires AllOk(s) && !StopBegun(s) && |s.workers| > 0 && s.shared.parked == []
    ensures exists i :: 0 <= i < |s.workers| && !Settled(s.workers[i])
  {
    assert Ok(s.shared, 0, s.workers[0]);
    assert !Settled(s.workers[0]);
  }

  // ---------------------------------------------------------------------------------------------
  // A worker's own step

  /** The step before the futex wake that ends `WakeWorker` is applied. */
  function Plain(s: State, i: nat, a: Act): State
    requires i < |s.workers|
  {
    var e := Exec(s.shared, i, s.workers[i], |s.workers|, a);
    State(e.shared, s.workers[i := e.worker], s.outsiders)
  }

  lemma PlainOk(s: State, i: nat, a: Act)
    requires Inv(s) && i < |s.workers|
    ensures AllOk(Plain(s, i, a))
  {
    var w := s.workers[i];
    var s' := Plain(s, i, a);
    ExecPolite(s.shared, i, w, |s.workers|, a);
    ExecOk(s.shared, i, w, |s.workers|, a);
    forall u | 0 <= u < |s.workers| && u != i ensures Ok(s'.shared, u, s'.workers[u]) {
      OkElsewhere(s.shared, s'.shared, i, u, s.workers[u]);
    }
  }

  lemma PlainSize(s: State, i: nat, a: Act)
    requires Inv(s) && i < |s.workers|
    ensures SizeOk(Plain(s, i, a))
  {
    var w := s.workers[i];
    var e := Exec(s.shared, i, w, |s.workers|, a);
    ExecPolite(s.shared, i, w, |s.workers|, a);
    ExecFlags(s.shared, i, w, |s.workers|, a);
    WorkerKicksUpdate(s.workers, i, e.worker);
  }

  lemma PlainForgets(s: State, i: nat, a: Act)
    requires Inv(s) && i < |s.workers|
    ensures NothingForgotten(Plain(s, i, a))
  {
    var w := s.workers[i];
    var s' := Plain(s, i, a);
    ExecFlags(s.shared, i, w, |s.workers|, a);
    if s'.shared.global != [] && !StopBegun(s') && Settled(s'.workers[i]) {
      ExecSettles(s.shared, i, w, |s.workers|, a);
      assert forall u :: 0 <= u < |s.workers| ==> s'.workers[u].hasStopped == s.workers[u].hasStopped;
      assert !StopBegun(s);
      if u :| 0 <= u < |s.workers| && !Settled(s.workers[u]) {
        assert s'.workers[u] == s.workers[u];
      }
    }
  }

  /** A due kick stays due until it is delivered. */
  lemma PlainWakes(s: State, i: nat, a: Act, u: nat)
    requires Inv(s) && i < |s.workers| && u < |s.workers|
    requires var w := Plain(s, i, a).workers[u]; w.pc.Asleep? && w.wakeups != w.expected
    ensures KickDue(Plain(s, i, a), u) || (a.Go? && s.workers[i].pc.NotifyKick? && s.workers[i].pc.target == u)
  {
    var s' := Plain(s, i, a);
    ExecFlags(s.shared, i, s.workers[i], |s.workers|, a);
    assert KickDue(s, u);
    if v :| 0 <= v < |s.workers| && s.workers[v].pc.NotifyKick? && s.workers[v].pc.target == u {
      if v != i || !a.Go? { assert s'.workers[v] == s.workers[v]; }
    }
  }

  lemma KickKeepsInv(s: State, target: nat)
    requires AllOk(s) && SizeOk(s) && NothingForgotten(s) && StopsInOrder(s)
    requires forall i :: 0 <= i < |s.workers| && s.workers[i].pc.Asleep?
                         && s.workers[i].wakeups != s.workers[i].expected
                         ==> KickDue(s, i) || i == target
    ensures Inv(s.(workers := Kick(s.workers, target)))
  {
    var s' := s.(workers := Kick(s.workers, target));
    KickOk(s.shared, s.workers, target);
    KickBumpKicks(s.workers, target);
    forall i | 0 <= i < |s'.workers| && s'.workers[i].pc.Asleep? && s'.workers[i].wakeups != s'.workers[i].expected
      ensures KickDue(s', i)
    {
      assert KickDue(s, i);
      if v :| 0 <= v < |s.workers| && s.workers[v].pc.NotifyKick? && s.workers[v].pc.target == i {
        assert s'.workers[v] == s.workers[v];
      }
    }
    if s'.shared.global != [] && !StopBegun(s') && |s'.workers| > 0 {
      assert forall u :: 0 <= u < |s.workers| ==> s'.workers[u].hasStopped == s.workers[u].hasStopped;
      assert !StopBegun(s);
      if u :| 0 <= u < |s.workers| && !Settled(s.workers[u]) { assert !Settled(s'.workers[u]); }
    }
  }

  lemma PlainKeepsInv(s: State, i: nat, a: Act)
    requires Inv(s) && i < |s.workers| && !(a.Go? && s.workers[i].pc.NotifyKick?)
    ensures Inv(Plain(s, i, a))
  {
    PlainOk(s, i, a);
    PlainSize(s, i, a);
    PlainForgets(s, i, a);
    ExecFlags(s.shared, i, s.workers[i], |s.workers|, a);
    forall u | 0 <= u < |s.workers| && Plain(s, i, a).workers[u].pc.Asleep?
               && Plain(s, i, a).workers[u].wakeups != Plain(s, i, a).workers[u].expected
      ensures KickDue(Plain(s, i, a), u)
    {
      PlainWakes(s, i, a, u);
    }
  }

  lemma PlainThenKick(s: State, i: nat)
    requires Inv(s) && i < |s.workers| && s.workers[i].pc.NotifyKick?
    ensures Inv(Plain(s, i, Go).(workers := Kick(Plain(s, i, Go).workers, s.workers[i].pc.target)))
  {
    PlainOk(s, i, Go);
    PlainSize(s, i, Go);
    PlainForgets(s, i, Go);
    ExecFlags(s.shared, i, s.workers[i], |s.workers|, Go);
    forall u | 0 <= u < |s.workers| && Plain(s, i, Go).workers[u].pc.Asleep?
               && Plain(s, i, Go).workers[u].wakeups != Plain(s, i, Go).workers[u].expected
      ensures KickDue(Plain(s, i, Go), u) || u == s.workers[i].pc.target
    {
      PlainWakes(s, i, Go, u);
    }
    KickKeepsInv(Plain(s, i, Go), s.workers[i].pc.target);
  }

  // ---------------------------------------------------------------------------------------------
  // Stealing, waking, and the outside threads

  lemma StealOk(s: State, i: nat, take: nat)
    requires AllOk(s) && Stealing(s, i, take)
    ensures AllOk(StealStep(s, i, take))
  {
    assert Ok(s.shared, i, s.workers[i]) && Ok(s.shared, s.workers[i].pc.victim, s.workers[s.workers[i].pc.victim]);
  }

  lemma StealSize(s: State, i: nat, take: nat)
    requires SizeOk(s) && Stealing(s, i, take)
    ensures SizeOk(StealStep(s, i, take))
  {
    var me := s.workers[i];
    var victim := s.workers[me.pc.victim];
    var robbed := victim.(local := victim.local[take..]);
    WorkerKicksUpdate(s.workers, me.pc.victim, robbed);
    WorkerKicksUpdate(s.workers[me.pc.victim := robbed], i, StealStep(s, i, take).workers[i]);
  }

  lemma StealKeepsInv(s: State, i: nat, take: nat)
    requires Inv(s) && Stealing(s, i, take)
    ensures Inv(StealStep(s, i, take))
  {
    var s' := StealStep(s, i, take);
    StealOk(s, i, take);
    StealSize(s, i, take);
    assert !Settled(s'.workers[i]);
    forall u | 0 <= u < |s'.workers| && s'.workers[u].pc.Asleep? && s'.workers[u].wakeups != s'.workers[u].expected
      ensures KickDue(s', u)
    {
      assert KickDue(s, u);
      if v :| 0 <= v < |s.workers| && s.workers[v].pc.NotifyKick? && s.workers[v].pc.target == u {
        assert s'.workers[v].pc == s.workers[v].pc;
      }
    }
  }

  lemma PopKeepsBounds(parked: seq<nat>, n: nat)
    requires parked != [] && (forall u :: u in parked ==> u < n)
    ensures forall u :: u in parked[1..] ==> u < n
  {
    forall u | u in parked[1..] ensures u < n {
      assert u in parked;
    }
  }

  lemma WakeOk(s: State, i: nat)
    requires Inv(s) && Waking(s, i)
    ensures AllOk(WakeStep(s, i)) && SizeOk(WakeStep(s, i))
  {
    var target := s.shared.parked[0];
    var me := s.workers[i];
    var me' := me.(pc := NotifyKick(target, me.pc.k));
    assert Ok(s.shared, i, me);
    BumpOk(s.shared, WakeStep(s, i).shared, s.workers[i := me'], target);
    WorkerKicksUpdate(s.workers, i, me');
    KickBumpKicks(s.workers[i := me'], target);
    PopKeepsBounds(s.shared.parked, |s.workers|);
  }

  lemma WakeDue(s: State, i: nat, u: nat)
    requires Inv(s) && Waking(s, i)
    requires u < |s.workers|
    requires var w := WakeStep(s, i).workers[u]; w.pc.Asleep? && w.wakeups != w.expected
    ensures KickDue(WakeStep(s, i), u)
  {
    var s' := WakeStep(s, i);
    var target := s.shared.parked[0];
    assert s'.workers[i].pc == NotifyKick(target, s.workers[i].pc.k);
    if u != target {
      assert KickDue(s, u);
      if v :| 0 <= v < |s.workers| && s.workers[v].pc.NotifyKick? && s.workers[v].pc.target == u {
        assert s'.workers[v].pc == s.workers[v].pc;
      }
    }
  }

  lemma WakeKeepsInv(s: State, i: nat)
    requires Inv(s) && Waking(s, i)
    ensures Inv(WakeStep(s, i))
  {
    var s' := WakeStep(s, i);
    WakeOk(s, i);
    assert s'.workers[i].pc.NotifyKick? && !Settled(s'.workers[i]);
    assert forall u :: 0 <= u < |s.workers| ==> s'.workers[u].hasStopped == s.workers[u].hasStopped;
    forall u | 0 <= u < |s'.workers| && s'.workers[u].pc.Asleep? && s'.workers[u].wakeups != s'.workers[u].expected
      ensures KickDue(s', u)
    {
      WakeDue(s, i, u);
    }
  }

  lemma WorkerStepKeepsInv(s: State, i: nat, a: Act)
    requires Inv(s) && i < |s.workers|
    ensures Inv(WorkerStep(s, i, a))
  {
    if a.StealSome? && Stealing(s, i, a.take) {
      StealKeepsInv(s, i, a.take);
    } else if a.Go? && Waking(s, i) {
      WakeKeepsInv(s, i);
    } else if a.Go? && s.workers[i].pc.NotifyKick? {
      PlainThenKick(s, i);
    } else {
      PlainKeepsInv(s, i, a);
    }
  }

  /** An outside step that bumps worker `k` and owes it the wake from then on. */
  lemma OutsideBump(s: State, s': State, j: nat, k: nat)
    requires Inv(s) && j < |s.outsiders| && k < |s.workers| == |s'.workers|
    requires |s'.outsiders| == |s.outsiders| && s'.outsiders == s.outsiders[j := s'.outsiders[j]]
    requires OwesKick(s'.outsiders[j], k)
    requires !s.outsiders[j].SubmitKick? && !s.outsiders[j].StopKick?
    requires forall u :: 0 <= u < |s.workers| ==> s'.workers[u].pc == s.workers[u].pc
    requires forall u :: 0 <= u < |s.workers| && u != k ==> s'.workers[u] == s.workers[u]
    ensures WakesDue(s')
  {
    forall u | 0 <= u < |s'.workers| && s'.workers[u].pc.Asleep? && s'.workers[u].wakeups != s'.workers[u].expected
      ensures KickDue(s', u)
    {
      if u != k {
        assert KickDue(s, u);
        if v :| 0 <= v < |s.workers| && s.workers[v].pc.NotifyKick? && s.workers[v].pc.target == u {
          assert s'.workers[v].pc == s.workers[v].pc;
        } else {
          var o :| 0 <= o < |s.outsiders| && OwesKick(s.outsiders[o], u);
          assert s'.outsiders[o] == s.outsiders[o];
        }
      }
    }
  }

  /** Kicks due before remain due when an outsider without one moves on. */
  lemma OutsideQuiet(s: State, s': State, j: nat)
    requires WakesDue(s) && j < |s.outsiders| == |s'.outsiders| && s'.outsiders == s.outsiders[j := s'.outsiders[j]]
    requires !s.outsiders[j].SubmitKick? && !s.outsiders[j].StopKick?
    requires |s'.workers| == |s.workers|
    requires forall u :: 0 <= u < |s.workers| ==>
      && s'.workers[u].pc == s.workers[u].pc && s'.workers[u].wakeups == s.workers[u].wakeups
      && s'.workers[u].expected == s.workers[u].expected
    ensures WakesDue(s')
  {
    forall u | 0 <= u < |s'.workers| && s'.workers[u].pc.Asleep? && s'.workers[u].wakeups != s'.workers[u].expected
      ensures KickDue(s', u)
    {
      assert KickDue(s, u);
      if v :| 0 <= v < |s.workers| && s.workers[v].pc.NotifyKick? && s.workers[v].pc.target == u {
        assert s'.workers[v].pc == s.workers[v].pc;
      } else {
        var o :| 0 <= o < |s.outsiders| && OwesKick(s.outsiders[o], u);
        assert s'.outsiders[o] == s.outsiders[o];
      }
    }
  }

  lemma SubmitKeepsInv(s: State, j: nat, task: Task, hint: Hint)
    requires Inv(s) && j < |s.outsiders| && s.outsiders[j].Away?
    ensures Inv(OutsiderStep(s, j, Submit(task, hint)))
  {
    var s' := OutsiderStep(s, j, Submit(task, hint));
    OutsideQuiet(s, s', j);
    OutsiderKicksUpdate(s.outsiders, j, SubmitRead);
    assert Submitting(s'.outsiders[j]);
    forall u | 0 <= u < |s.workers| ensures Ok(s'.shared, u, s'.workers[u]) {
      assert Ok(s.shared, u, s.workers[u]);
    }
  }

  lemma StartStopKeepsInv(s: State, j: nat)
    requires Inv(s) && j < |s.outsiders| && s.outsiders[j].Away?
    ensures Inv(OutsiderStep(s, j, StartStop))
  {
    var s' := OutsiderStep(s, j, StartStop);
    OutsideQuiet(s, s', j);
    OutsiderKicksUpdate(s.outsiders, j, StopStore(0));
    if o :| 0 <= o < |s.outsiders| && Submitting(s.outsiders[o]) { assert s'.outsiders[o] == s.outsiders[o]; }
    assert StopBegun(s') ==> StopBegun(s);
    assert StopBegun(s) ==> StopBegun(s');
  }

  lemma SubmitReadKeepsInv(s: State, j: nat, a: Act)
    requires Inv(s) && j < |s.outsiders|
    requires s.outsiders[j].SubmitRead? || (s.outsiders[j].SubmitWake? && s.shared.parked == [])
    ensures Inv(OutsiderStep(s, j, a))
  {
    var s' := OutsiderStep(s, j, a);
    OutsideQuiet(s, s', j);
    OutsiderKicksUpdate(s.outsiders, j, s'.outsiders[j]);
    if s'.outsiders[j].Away? && !StopBegun(s) && |s.workers| > 0 {
      SomebodyUnsettled(s);
    } else {
      assert s'.outsiders[j].SubmitWake? ==> Submitting(s'.outsiders[j]);
    }
    assert StopBegun(s') == StopBegun(s);
  }

  lemma SubmitWakeKeepsInv(s: State, j: nat, a: Act)
    requires Inv(s) && j < |s.outsiders| && s.outsiders[j].SubmitWake? && s.shared.parked != []
    ensures Inv(OutsiderStep(s, j, a))
  {
    var s' := OutsiderStep(s, j, a);
    var target := s.shared.parked[0];
    assert target in s.shared.parked;
    BumpOk(s.shared, s'.shared, s.workers, target);
    KickBumpKicks(s.workers, target);
    OutsiderKicksUpdate(s.outsiders, j, SubmitKick(target));
    PopKeepsBounds(s.shared.parked, |s.workers|);
    OutsideBump(s, s', j, target);
    assert Ok(s.shared, target, s.workers[target]);
    assert forall u :: 0 <= u < |s.workers| ==> s'.workers[u].hasStopped == s.workers[u].hasStopped;
    if !StopBegun(s') { assert !Settled(s'.workers[target]); }
  }

  /** An outside thread about to deliver its kick, seen as if it had already left. */
  function KickGone(s: State, j: nat): State
    requires j < |s.outsiders| && (s.outsiders[j].SubmitKick? || s.outsiders[j].StopKick?)
  {
    var o := s.outsiders[j];
    s.(shared := if o.SubmitKick? then s.shared.(approx := s.shared.approx - 1) else s.shared,
       outsiders := s.outsiders[j := if o.SubmitKick? then Away else StopStore(o.k + 1)])
  }

  function KickTarget(o: Outsider): nat
    requires o.SubmitKick? || o.StopKick?
  {
    if o.SubmitKick? then o.target else o.k
  }

  lemma KickGoneWakes(s: State, j: nat, u: nat)
    requires j < |s.outsiders| && (s.outsiders[j].SubmitKick? || s.outsiders[j].StopKick?)
    requires KickDue(s, u)
    ensures KickDue(KickGone(s, j), u) || u == KickTarget(s.outsiders[j])
  {
    if p :| 0 <= p < |s.outsiders| && OwesKick(s.outsiders[p], u) {
      if p != j { assert KickGone(s, j).outsiders[p] == s.outsiders[p]; }
    }
  }

  lemma KickGoneForgets(s: State, j: nat)
    requires j < |s.outsiders| && (s.outsiders[j].SubmitKick? || s.outsiders[j].StopKick?)
    requires NothingForgotten(s)
    ensures NothingForgotten(KickGone(s, j))
  {
    assert StopBegun(KickGone(s, j)) == StopBegun(s);
    if p :| 0 <= p < |s.outsiders| && Submitting(s.outsiders[p]) {
      assert KickGone(s, j).outsiders[p] == s.outsiders[p];
    }
  }

  lemma KickGoneOk(s: State, j: nat)
    requires j < |s.outsiders| && (s.outsiders[j].SubmitKick? || s.outsiders[j].StopKick?)
    requires AllOk(s) && SizeOk(s) && StopsInOrder(s)
    ensures AllOk(KickGone(s, j)) && SizeOk(KickGone(s, j)) && StopsInOrder(KickGone(s, j))
  {
    var mid := KickGone(s, j);
    OutsiderKicksUpdate(s.outsiders, j, mid.outsiders[j]);
    forall u | 0 <= u < |mid.workers| ensures Ok(mid.shared, u, mid.workers[u]) {
      assert Ok(s.shared, u, s.workers[u]);
    }
  }

  lemma OutsideKickKeepsInv(s: State, j: nat, a: Act)
    requires Inv(s) && j < |s.outsiders| && (s.outsiders[j].SubmitKick? || s.outsiders[j].StopKick?)
    ensures Inv(OutsiderStep(s, j, a))
  {
    var mid := KickGone(s, j);
    KickGoneOk(s, j);
    forall u | 0 <= u < |mid.workers| && mid.workers[u].pc.Asleep? && mid.workers[u].wakeups != mid.workers[u].expected
      ensures KickDue(mid, u) || u == KickTarget(s.outsiders[j])
    {
      KickGoneWakes(s, j, u);
    }
    KickGoneForgets(s, j);
    KickKeepsInv(mid, KickTarget(s.outsiders[j]));
  }

  lemma StopFlagKeepsInv(s: State, j: nat, a: Act)
    requires Inv(s) && j < |s.outsiders| && s.outsiders[j].StopStore?
    ensures Inv(OutsiderStep(s, j, a))
  {
    var s' := OutsiderStep(s, j, a);
    var k := s.outsiders[j].k;
    OutsideQuiet(s, s', j);
    OutsiderKicksUpdate(s.outsiders, j, s'.outsiders[j]);
    if k < |s.workers| {
      WorkerKicksUpdate(s.workers, k, s'.workers[k]);
      assert s'.workers[k].hasStopped;
      assert StopBegun(s');
      assert Ok(s.shared, k, s.workers[k]);
    } else {
      assert StopBegun(s') == StopBegun(s);
      if p :| 0 <= p < |s.outsiders| && Submitting(s.outsiders[p]) { assert s'.outsiders[p] == s.outsiders[p]; }
    }
  }

  lemma StopAddKeepsInv(s: State, j: nat, a: Act)
    requires Inv(s) && j < |s.outsiders| && s.outsiders[j].StopAdd?
    ensures Inv(OutsiderStep(s, j, a))
  {
    var s' := OutsiderStep(s, j, a);
    var k := s.outsiders[j].k;
    assert Ok(s.shared, k, s.workers[k]);
    WorkerKicksUpdate(s.workers, k, s'.workers[k]);
    OutsiderKicksUpdate(s.outsiders, j, s'.outsiders[j]);
    assert s'.workers[k].hasStopped;
    assert StopBegun(s');
    OutsideBump(s, s', j, k);
  }

  lemma OutsiderStepKeepsInv(s: State, j: nat, a: Act)
    requires Inv(s) && j < |s.outsiders|
    ensures Inv(OutsiderStep(s, j, a))
  {
    match s.outsiders[j]
    case Away =>
      if a.Submit? { SubmitKeepsInv(s, j, a.task, a.hint); }
      else if a.StartStop? { StartStopKeepsInv(s, j); }
    case SubmitRead => SubmitReadKeepsInv(s, j, a);
    case SubmitWake => if s.shared.parked == [] { SubmitReadKeepsInv(s, j, a); } else { SubmitWakeKeepsInv(s, j, a); }
    case SubmitKick(_) => OutsideKickKeepsInv(s, j, a);
    case StopStore(_) => StopFlagKeepsInv(s, j, a);
    case StopAdd(_) => StopAddKeepsInv(s, j, a);
    case StopKick(_) => OutsideKickKeepsInv(s, j, a);
  }

  // ---------------------------------------------------------------------------------------------
  // Results

  lemma {:induction false} NoKicksAtFirst(workers: seq<Worker>, outsiders: seq<Outsider>)
    requires forall i :: 0 <= i < |workers| ==> workers[i].pc == Top
    requires forall j :: 0 <= j < |outsiders| ==> outsiders[j] == Away
    ensures WorkerKicks(workers) == 0 == OutsiderKicks(outsiders)
  {
    if workers != [] { NoKicksAtFirst(workers[1..], outsiders); }
    if workers == [] && outsiders != [] { NoKicksAtFirst(workers, outsiders[1..]); }
  }

  lemma RunKeepsInv(run: seq<State>, i: nat)
    requires IsRun(Init, Next, run) && i < |run|
    ensures Inv(run[i])
  {
    forall s | Init(s) ensures Inv(s) { NoKicksAtFirst(s.workers, s.outsiders); }
    forall s, s' | Inv(s) && Next(s, s') ensures Inv(s') {
      if w: nat, a :| w < |s.workers| && s' == WorkerStep(s, w, a) {
        WorkerStepKeepsInv(s, w, a);
      } else {
        var j: nat, a :| j < |s.outsiders| && s' == OutsiderStep(s, j, a);
        OutsiderStepKeepsInv(s, j, a);
      }
    }
    Invariance(Init, Next, Inv, run);
  }

  /** No lost wakeup. If all workers are in their futex wait, no outside thread is inside `Submit`, and no
      `Stop` has set a flag, then no task is waiting anywhere; and each worker waits on the current value
      of its `wakeups_`. */
  lemma NoLostWakeup(run: seq<State>, i: nat)
    requires IsRun(Init, Next, run) && i < |run| && |run[i].workers| > 0
    requires forall w :: 0 <= w < |run[i].workers| ==> run[i].workers[w].pc.Asleep? && !run[i].workers[w].hasStopped
    requires forall j :: 0 <= j < |run[i].outsiders| ==> !InsideSubmit(run[i].outsiders[j])
    ensures run[i].shared.global == []
    ensures forall w :: 0 <= w < |run[i].workers| ==>
      && run[i].workers[w].local == [] && run[i].workers[w].lifo == []
      && run[i].workers[w].wakeups == run[i].workers[w].expected
  {
    RunKeepsInv(run, i);
    var s := run[i];
    forall w | 0 <= w < |s.workers|
      ensures s.workers[w].local == [] && s.workers[w].lifo == [] && s.workers[w].wakeups == s.workers[w].expected
    {
      assert Ok(s.shared, w, s.workers[w]);
      assert !KickDue(s, w);
    }
  }

  /** As long as a task waits in the global queue before a stop, some worker has yet to look at the
      queue again before it can sleep, or some submitter has yet to finish waking one. */
  lemma QueuedTaskIsSeen(run: seq<State>, i: nat)
    requires IsRun(Init, Next, run) && i < |run| && |run[i].workers| > 0
    requires run[i].shared.global != []
    requires forall w :: 0 <= w < |run[i].workers| ==> !run[i].workers[w].hasStopped
    ensures || (exists w :: 0 <= w < |run[i].workers| && !Settled(run[i].workers[w]))
            || (exists j :: 0 <= j < |run[i].outsiders| && Submitting(run[i].outsiders[j]))
  {
    RunKeepsInv(run, i);
  }

  /** The coordinator's size never underestimates its list, and gives its length exactly if no wake is
      under way and `Unlink` has never removed a worker. */
  lemma SizeNeverLow(run: seq<State>, i: nat)
    requires IsRun(Init, Next, run) && i < |run|
    ensures var sh, kicks := run[i].shared, WorkerKicks(run[i].workers) + OutsiderKicks(run[i].outsiders);
      && sh.approx == |sh.parked| + kicks + sh.unlinks
      && sh.approx >= |sh.parked|
      && (sh.approx == |sh.parked| <==> kicks == 0 && sh.unlinks == 0)
  {
    RunKeepsInv(run, i);
  }

  /** One round of a lone worker that finds nothing, is linked in the middle, sleeps, and is woken
      spuriously. */
  function RoundPc(m: nat): Pc {
    if m == 0 then GetLifo(false) else if m == 1 then GetLocal(false) else if m == 2 then GetGlobal(false)
    else if m == 3 then Steal(false, 0) else if m == 4 then Steal(false, 1) else if m == 5 then LoadWakeups
    else if m == 6 then Park else if m == 7 then GetLifo(true) else if m == 8 then GetLocal(true)
    else if m == 9 then GetGlobal(true) else if m == 10 then Steal(true, 0) else if m == 11 then Steal(true, 1)
    else if m == 12 then CheckStop else if m == 13 then Sleep else if m == 14 then Asleep else Unpark
  }

  function LoneWorker(m: nat): Worker { Worker(RoundPc(m), [], 0, 1, [], 0, 0, false, false) }

  function LoneShared(capacity: nat, k: nat, m: nat): Shared {
    var linked := if m >= 7 then [0] else [];
    Shared(capacity, [], linked, k + |linked|, k, multiset{}, multiset{})
  }

  /** The pool after `k` rounds and `m` steps. */
  function Lone(capacity: nat, k: nat, m: nat): State {
    State(LoneShared(capacity, k, m), [LoneWorker(m)], [])
  }

  lemma LoneStep(capacity: nat, k: nat, m: nat)
    requires m < 16
    ensures Next(Lone(capacity, k, m), if m < 15 then Lone(capacity, k, m + 1) else Lone(capacity, k + 1, 0))
  {
    var s, s' := Lone(capacity, k, m), if m < 15 then Lone(capacity, k, m + 1) else Lone(capacity, k + 1, 0);
    assert s' == WorkerStep(s, 0, Go);
  }

  function LoneAt(capacity: nat, n: nat): State { Lone(capacity, n / 16, n % 16) }

  lemma LoneNext(capacity: nat, n: nat)
    ensures Next(LoneAt(capacity, n), LoneAt(capacity, n + 1))
  {
    LoneStep(capacity, n / 16, n % 16);
    assert if n % 16 < 15 then (n + 1) / 16 == n / 16 && (n + 1) % 16 == n % 16 + 1
           else (n + 1) / 16 == n / 16 + 1 && (n + 1) % 16 == 0;
  }

  function LoneStart(capacity: nat): State {
    State(Shared(capacity, [], [], 0, 0, multiset{}, multiset{}),
          [Worker(Top, [], 0, 0, [], 0, 0, false, false)], [])
  }

  lemma LoneStarts(capacity: nat)
    requires capacity > 0
    ensures Init(LoneStart(capacity)) && Next(LoneStart(capacity), LoneAt(capacity, 0))
  {
    assert LoneAt(capacity, 0) == WorkerStep(LoneStart(capacity), 0, Go);
  }

  lemma {:induction false} LoneRun(capacity: nat, n: nat) returns (run: seq<State>)
    requires capacity > 0
    ensures IsRun(Init, Next, run) && run[|run| - 1] == LoneAt(capacity, n)
  {
    if n == 0 {
      LoneStarts(capacity);
      run := [LoneStart(capacity)];
      ExtendRun(Init, Next, run, LoneAt(capacity, n));
    } else {
      run := LoneRun(capacity, n - 1);
      LoneNext(capacity, n - 1);
      ExtendRun(Init, Next, run, LoneAt(capacity, n));
    }
    run := run + [LoneAt(capacity, n)];
  }

  /** The size is off by any number in some run, with an empty list and no wake under way: one worker whose
      waits end spuriously is enough. */
  lemma SizeDrifts(capacity: nat, k: nat) returns (run: seq<State>)
    requires capacity > 0
    ensures IsRun(Init, Next, run)
    ensures var s := run[|run| - 1];
      s.shared.parked == [] && s.shared.approx == k && WorkerKicks(s.workers) + OutsiderKicks(s.outsiders) == 0
  {
    run := LoneRun(capacity, 16 * k);
  }

  /** No stop is missed: a worker that `Stop` has bumped is never asleep on the current value. */
  lemma NoMissedStop(run: seq<State>, i: nat, w: nat)
    requires IsRun(Init, Next, run) && i < |run| && w < |run[i].workers|
    requires run[i].workers[w].stopWoken && run[i].workers[w].pc.Asleep?
    ensures run[i].workers[w].wakeups != run[i].workers[w].expected && KickDue(run[i], w)
  {
    RunKeepsInv(run, i);
    assert Ok(run[i].shared, w, run[i].workers[w]);
  }

  /** A worker that exits leaves nothing in its LIFO slot, in its local queue, or under its name in
      the global queue. */
  lemma WorkerLeavesNothing(run: seq<State>, i: nat, w: nat)
    requires IsRun(Init, Next, run) && i < |run| && w < |run[i].workers| && run[i].workers[w].pc.Exited?
    ensures run[i].workers[w].hasStopped
    ensures run[i].workers[w].local == [] && run[i].workers[w].lifo == []
    ensures forall e :: e in run[i].shared.global ==> e.pusher != Inside(w)
  {
    RunKeepsInv(run, i);
    assert Ok(run[i].shared, w, run[i].workers[w]);
  }

  lemma {:induction false} ExitedHaveNothing(workers: seq<Worker>, x: Task)
    requires forall w :: 0 <= w < |workers| ==> workers[w].pc.Exited? && workers[w].local == [] == workers[w].lifo
    ensures SchedulerConservation.Total(workers, x) == 0
  {
    if workers != [] { ExitedHaveNothing(workers[1..], x); }
  }

  /** No internal work is abandoned: when all workers have exited, every submitted task has been
      executed, except those an outside thread pushed and no worker ever took. */
  lemma NothingAbandoned(run: seq<State>, i: nat, x: Task)
    requires IsRun(Init, Next, run) && i < |run|
    requires forall w :: 0 <= w < |run[i].workers| ==> run[i].workers[w].pc.Exited?
    ensures run[i].shared.submitted[x] == run[i].shared.executed[x] + Occ(Tasks(run[i].shared.global), x)
    ensures forall e :: e in run[i].shared.global ==> e.pusher.Outside?
  {
    RunKeepsInv(run, i);
    forall w | 0 <= w < |run[i].workers| ensures run[i].workers[w].local == [] == run[i].workers[w].lifo {
      WorkerLeavesNothing(run, i, w);
    }
    ExitedHaveNothing(run[i].workers, x);
    SchedulerConservation.TasksConserved(run, i, x);
    forall e | e in run[i].shared.global ensures e.pusher.Outside? {
      if e.pusher.Inside? { WorkerLeavesNothing(run, i, e.pusher.worker); }
    }
  }
}
