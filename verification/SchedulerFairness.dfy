/**
 Bounded bypass in the work-stealing scheduler: in every run, neither the LIFO slot nor the global
 queue can keep a worker from its local queue for long, whatever they contain and whatever the other
 threads do.
 */
module SchedulerFairness {
  import opened Counting
  import opened Runs
  import opened SchedulerMachine

  datatype Source = FromLifo | FromLocal | FromGlobal

  /** A call of `PickTask` gets its task in the step from `w` to `w'`. */
  predicate PickedFrom(source: Source, w: Worker, w': Worker) {
    match source
    case FromLifo => w.pc.GetLifo? && w'.pc.Got?
    case FromLocal => w.pc.GetLocal? && w'.pc.Got?
    case FromGlobal => w.pc.Poll? && w'.pc.Spread?
  }

  /** The worker finds its local queue empty. */
  predicate LocalMiss(w: Worker, w': Worker) { w.pc.GetLocal? && w'.pc.GetGlobal? }

  /** Inside `PickTask`, and the task is still to be found. */
  predicate Open(pc: Pc) { pc.Poll? || pc.GetLifo? || pc.GetLocal? }

  /** Where a worker gets to as long as its local queue is not found empty. */
  predicate Working(pc: Pc) {
    pc.Top? || Open(pc) || pc.Spread? || pc.Got? || pc.Run? || Pushing(pc)
  }

  // ---------------------------------------------------------------------------------------------
  // One step

  /** The chain of LIFO picks is bounded and cut before the local queue is looked at, and the poll comes
      only in every 61st call. */
  predicate CountersOk(w: Worker) {
    && w.chain <= LIFO_MAX_CHAIN
    && (w.pc.GetLocal? ==> w.chain == 0)
    && (w.pc.Poll? ==> w.iter % POLL_PERIOD == 0)
  }

  /** The LIFO picks a worker may have to its credit before its next pick from the local queue. */
  function Credit(w: Worker): nat { w.chain + 16 * One(w.pc.GetLocal?) }

  /** What a step does to the accounts of a worker. */
  ghost predicate Tallied(w: Worker, w': Worker) {
    && Working(w'.pc) && w.iter <= w'.iter
    && One(PickedFrom(FromLifo, w, w')) + One(PickedFrom(FromLocal, w, w')) + One(PickedFrom(FromGlobal, w, w'))
       + One(Open(w'.pc)) == One(Open(w.pc)) + w'.iter - w.iter
    && One(PickedFrom(FromLifo, w, w')) + Credit(w) <= 16 * One(PickedFrom(FromLocal, w, w')) + Credit(w')
    && One(PickedFrom(FromGlobal, w, w')) + One(w'.pc.Poll?) + w.iter / POLL_PERIOD
       <= One(w.pc.Poll?) + w'.iter / POLL_PERIOD
  }

  /** Which task a pick takes. */
  ghost predicate Served(w: Worker, w': Worker) {
    && (PickedFrom(FromLifo, w, w') ==> w.lifo != [] && w'.pc.next == w.lifo[0] && w'.lifo == w.lifo[1..])
    && (PickedFrom(FromLocal, w, w') ==> w.local != [] && w'.pc.next == w.local[0] && w'.local == w.local[1..])
    && (PickedFrom(FromGlobal, w, w') ==> w.iter % POLL_PERIOD == 0)
  }

  ghost predicate Fair(w: Worker, w': Worker) {
    CountersOk(w) ==>
      CountersOk(w') && Served(w, w') && (Working(w.pc) && !LocalMiss(w, w') ==> Tallied(w, w'))
  }

  lemma TopFair(sh: Shared, i: nat, w: Worker, workers: nat)
    requires w.pc.Top?
    ensures Fair(w, ExecPick(sh, i, w, workers).worker)
  {
    assert (w.iter + 1) / POLL_PERIOD == w.iter / POLL_PERIOD + One((w.iter + 1) % POLL_PERIOD == 0);
  }

  lemma LookFair(sh: Shared, i: nat, w: Worker, workers: nat)
    requires w.pc.Poll? || w.pc.GetLifo? || w.pc.GetLocal?
    ensures Fair(w, ExecPick(sh, i, w, workers).worker)
  {
  }

  lemma PickFair(sh: Shared, i: nat, w: Worker, workers: nat)
    requires Picking(w.pc)
    ensures Fair(w, ExecPick(sh, i, w, workers).worker)
  {
    if w.pc.Top? { TopFair(sh, i, w, workers); }
    else if w.pc.Poll? || w.pc.GetLifo? || w.pc.GetLocal? { LookFair(sh, i, w, workers); }
  }

  /** Steps between picks, which leave the accounts alone. */
  predicate Aside(w: Worker, w': Worker) {
    && w'.chain == w.chain && w'.iter == w.iter
    && (Working(w'.pc) && !Open(w'.pc)) && !Open(w.pc)
  }

  lemma AsideFair(w: Worker, w': Worker)
    requires Aside(w, w')
    ensures Fair(w, w')
  {
  }

  lemma PushFair(sh: Shared, i: nat, w: Worker)
    requires Pushing(w.pc)
    ensures Fair(w, ExecPush(sh, i, w).worker)
  {
    AsideFair(w, ExecPush(sh, i, w).worker);
  }

  lemma ParkFair(sh: Shared, i: nat, w: Worker)
    requires !Picking(w.pc) && !Pushing(w.pc)
    ensures Fair(w, ExecPark(sh, i, w).worker)
  {
  }

  lemma SubmitFair(sh: Shared, i: nat, w: Worker, task: Task, hint: Hint)
    requires w.pc.Run?
    ensures Fair(w, ExecSubmit(sh, i, w, task, hint).worker)
  {
  }

  lemma ExecFair(sh: Shared, i: nat, w: Worker, workers: nat, a: Act)
    ensures Fair(w, Exec(sh, i, w, workers, a).worker)
  {
    if a.Submit? {
      if w.pc.Run? { SubmitFair(sh, i, w, a.task, a.hint); }
    } else if a.Go? {
      if Picking(w.pc) { PickFair(sh, i, w, workers); }
      else if Pushing(w.pc) { PushFair(sh, i, w); }
      else { ParkFair(sh, i, w); }
    }
  }

  /** What the others can do to a worker: rob it, bump it, wake it, and tell it to stop. */
  predicate LeftAlone(w: Worker, w': Worker) {
    && w'.chain == w.chain && w'.iter == w.iter
    && (w'.pc == w.pc || (w.pc.Asleep? && w'.pc.Unpark?))
  }

  lemma LeftAloneFair(w: Worker, w': Worker)
    requires LeftAlone(w, w')
    ensures Fair(w, w')
  {
  }

  lemma OwnStepFair(s: State, i: nat, a: Act)
    requires i < |s.workers|
    ensures Fair(s.workers[i], WorkerStep(s, i, a).workers[i])
  {
    ExecFair(s.shared, i, s.workers[i], |s.workers|, a);
  }

  lemma OtherStepFair(s: State, i: nat, a: Act, w: nat)
    requires i < |s.workers| && w < |s.workers| && w != i
    ensures LeftAlone(s.workers[w], WorkerStep(s, i, a).workers[w])
  {
  }

  lemma OutsiderStepFair(s: State, j: nat, a: Act, w: nat)
    requires j < |s.outsiders| && w < |s.workers|
    ensures LeftAlone(s.workers[w], OutsiderStep(s, j, a).workers[w])
  {
  }

  lemma StepFair(s: State, s': State, w: nat)
    requires Next(s, s') && w < |s.workers|
    ensures |s'.workers| == |s.workers| && Fair(s.workers[w], s'.workers[w])
  {
    if i: nat, a :| i < |s.workers| && s' == WorkerStep(s, i, a) {
      if i == w {
        OwnStepFair(s, i, a);
      } else {
        OtherStepFair(s, i, a, w);
        LeftAloneFair(s.workers[w], s'.workers[w]);
      }
    } else {
      var j: nat, a :| j < |s.outsiders| && s' == OutsiderStep(s, j, a);
      OutsiderStepFair(s, j, a, w);
      LeftAloneFair(s.workers[w], s'.workers[w]);
    }
  }

  // ---------------------------------------------------------------------------------------------
  // Stretches of a run, as one worker goes through them

  function Picks(source: Source, path: seq<Worker>): nat {
    if |path| < 2 then 0
    else Picks(source, path[..|path| - 1]) + One(PickedFrom(source, path[|path| - 2], path[|path| - 1]))
  }

  lemma {:induction false} PathTally(path: seq<Worker>)
    requires |path| > 0 && path[0].pc == Top && CountersOk(path[0])
    requires forall k :: 0 <= k < |path| - 1 ==> Fair(path[k], path[k + 1]) && !LocalMiss(path[k], path[k + 1])
    ensures var first, last := path[0], path[|path| - 1];
      && Working(last.pc) && CountersOk(last) && first.iter <= last.iter
      && Picks(FromLifo, path) + Picks(FromLocal, path) + Picks(FromGlobal, path) + One(Open(last.pc))
         == last.iter - first.iter
      && Picks(FromLifo, path) + first.chain <= 16 * Picks(FromLocal, path) + Credit(last)
      && Picks(FromGlobal, path) + One(last.pc.Poll?) + first.iter / POLL_PERIOD <= last.iter / POLL_PERIOD
  {
    if |path| > 1 {
      var before := path[..|path| - 1];
      PathTally(before);
      assert Fair(path[|path| - 2], path[|path| - 1]);
    }
  }

  /** The accounts of a stretch that begins with a call of `PickTask`. */
  ghost predicate Bounded(path: seq<Worker>)
    requires |path| > 0 && path[0].iter <= path[|path| - 1].iter
  {
    var n := path[|path| - 1].iter - path[0].iter;
    var finished := n - One(Open(path[|path| - 1].pc));
    && Picks(FromLifo, path) + Picks(FromLocal, path) + Picks(FromGlobal, path) == finished
    && Picks(FromGlobal, path) <= (n + 60) / 61
    && Picks(FromLifo, path) <= 16 * (Picks(FromLocal, path) + 1)
    && Picks(FromLocal, path) >= (finished - (n + 60) / 61) / 17
  }

  lemma PathBounded(path: seq<Worker>)
    requires |path| > 0 && path[0].pc == Top && CountersOk(path[0])
    requires forall k :: 0 <= k < |path| - 1 ==> Fair(path[k], path[k + 1]) && !LocalMiss(path[k], path[k + 1])
    ensures path[0].iter <= path[|path| - 1].iter && Bounded(path)
  {
    PathTally(path);
  }

  ghost predicate AllCountersOk(s: State) {
    forall w :: 0 <= w < |s.workers| ==> CountersOk(s.workers[w])
  }

  lemma RunCounters(run: seq<State>, i: nat)
    requires IsRun(Init, Next, run) && i < |run|
    ensures AllCountersOk(run[i])
  {
    forall s, s' | AllCountersOk(s) && Next(s, s') ensures AllCountersOk(s') { StepCounters(s, s'); }
    Invariance(Init, Next, AllCountersOk, run);
  }

  lemma StepCounters(s: State, s': State)
    requires AllCountersOk(s) && Next(s, s')
    ensures AllCountersOk(s')
  {
    if |s.workers| > 0 { StepFair(s, s', 0); }
    forall w | 0 <= w < |s'.workers| ensures CountersOk(s'.workers[w]) {
      if w < |s.workers| { StepFair(s, s', w); }
    }
  }

  lemma RunStepFair(run: seq<State>, i: nat, w: nat)
    requires IsRun(Init, Next, run) && i + 1 < |run| && w < |run[i].workers|
    ensures w < |run[i + 1].workers| && Fair(run[i].workers[w], run[i + 1].workers[w])
  {
    StepFair(run[i], run[i + 1], w);
  }

  /** Worker `w` from `run[a]` to `run[b]`. */
  function PathOf(run: seq<State>, w: nat, a: nat, b: nat): (path: seq<Worker>)
    requires a <= b < |run| && forall k :: a <= k <= b ==> w < |run[k].workers|
  {
    seq(b - a + 1, k requires 0 <= k <= b - a => run[a + k].workers[w])
  }

  lemma StretchBounded(run: seq<State>, w: nat, a: nat, b: nat)
    requires a <= b < |run| && forall k :: a <= k <= b ==> w < |run[k].workers|
    requires run[a].workers[w].pc == Top && CountersOk(run[a].workers[w])
    requires forall k :: a <= k < b ==>
      Fair(run[k].workers[w], run[k + 1].workers[w]) && !LocalMiss(run[k].workers[w], run[k + 1].workers[w])
    ensures run[a].workers[w].iter <= run[b].workers[w].iter && Bounded(PathOf(run, w, a, b))
  {
    var path := PathOf(run, w, a, b);
    forall k | 0 <= k < |path| - 1 ensures Fair(path[k], path[k + 1]) && !LocalMiss(path[k], path[k + 1]) {
      assert path[k] == run[a + k].workers[w] && path[k + 1] == run[a + k + 1].workers[w];
    }
    PathBounded(path);
  }

  // ---------------------------------------------------------------------------------------------
  // Results

  /** In every run, a worker takes at most 16 tasks from the LIFO slot in a row; a pick takes what is in the
      slot or the head of the local queue, and only every 61st call is served by the poll. */
  lemma PickedTask(run: seq<State>, i: nat, w: nat)
    requires IsRun(Init, Next, run) && i + 1 < |run| && w < |run[i].workers|
    ensures w < |run[i + 1].workers| && Served(run[i].workers[w], run[i + 1].workers[w])
    ensures run[i].workers[w].chain <= 16
  {
    RunCounters(run, i);
    RunStepFair(run, i, w);
  }

  /** Take any stretch of any run that starts when a worker is about to call `PickTask`, and in which the
      worker does not find its local queue empty. Of the `n` calls begun in it, at most one in 61 (rounded
      up) is served by the poll, and of the finished others at least one in 17 pops the local queue. */
  lemma BoundedBypass(run: seq<State>, w: nat, a: nat, b: nat)
    requires IsRun(Init, Next, run) && a <= b < |run|
    requires forall k :: a <= k <= b ==> w < |run[k].workers|
    requires run[a].workers[w].pc == Top
    requires forall k :: a <= k < b ==> !LocalMiss(run[k].workers[w], run[k + 1].workers[w])
    ensures run[a].workers[w].iter <= run[b].workers[w].iter && Bounded(PathOf(run, w, a, b))
  {
    RunCounters(run, a);
    forall k | a <= k < b ensures Fair(run[k].workers[w], run[k + 1].workers[w]) { RunStepFair(run, k, w); }
    StretchBounded(run, w, a, b);
  }
}
