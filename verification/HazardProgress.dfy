/**
 A thread of `HazardMachine` that is left alone ends its call: `Load`, `Store` and `CompareExchangeWeak`, the
 drop of references, and the collections that those may begin.
 */
module HazardProgress {
  import opened HazardMachine
  import HazardSafety
  import opened Runs

  /** How far a thread is from the end of its call, compared from left to right: whether the call has still to
      take effect, the drops and resets to do, how far the current drop has got, the objects to scan, and the
      steps of the current round or scan. */
  datatype Distance = Distance(phase: nat, todos: nat, stage: nat, retired: nat, steps: nat)

  predicate Closer(d: Distance, e: Distance) {
    || d.phase < e.phase
    || (d.phase == e.phase && (
          || d.todos < e.todos
          || (d.todos == e.todos && (
                || d.stage < e.stage
                || (d.stage == e.stage && (
                      || d.retired < e.retired
                      || (d.retired == e.retired && d.steps < e.steps)))))))
  }

  function Steps(b: bool, n: nat, m: nat): nat { if b then n else m }

  /** Registering costs another round if somebody else has registered meanwhile. */
  function RegisterSteps(mem: Memory, th: Thread, stage: Stage): nat {
    match stage
    case GetMutator => Steps(th.mutator == 0, 5, 1)
    case RegisterLoad => 3
    case RegisterCas(head) => Steps(head == |mem.mutators|, 2, 4)
    case _ => 0
  }

  /** A round costs another one if the cell or the counter is not what the thread has seen. */
  function JobSteps(mem: Memory, th: Thread, job: Job, stage: Stage): nat {
    match stage
    case ProtectLoad => 9
    case ProtectSet(p) => Steps(HasCell(mem, job) && mem.cells[job.cell] == p, 8, 11)
    case ProtectCheck(p) => Steps(HasCell(mem, job) && mem.cells[job.cell] == p, 7, 10)
    case TryLoad(p) => Steps(Count(mem.heap, p) != 0, 3, 12)
    case TryCas(p, seen) => if Count(mem.heap, p) == seen then 2 else Steps(Count(mem.heap, p) != 0, 3, 12)
    case CellCas => Steps(HasCell(mem, job) && job.CasJob? && mem.cells[job.cell] == job.expected, 1, 11)
    case NextRound => 10
    case _ => 12 + RegisterSteps(mem, th, stage)
  }

  /** A scan starts again if somebody has registered since it began. */
  function ScanSteps(mem: Memory, gc: GcStage): nat {
    var m := |mem.mutators|;
    match gc
    case GcNext => 1
    case ScanHead(_) => 2 * m + 4
    case ScanSlot(_, head, cur, k) => Steps(k == 0, 2 * cur + 3, 2 * cur + 2) + Steps(head == m, 0, 2 * m + 5)
    case ScanRecheck(_, head) => 3 + Steps(head == m, 0, 2 * m + 5)
    case Destroy(_) => 2
  }

  function ToGo(mem: Memory, th: Thread): Distance {
    match th.pc
    case Ready => Distance(0, |th.todo|, 0, 0, 0)
    case Do(job, stage) =>
      if job.RetireJob? then Distance(0, |th.todo|, 2, 0, RegisterSteps(mem, th, stage))
      else Distance(1, 0, 0, 0, JobSteps(mem, th, job, stage))
    case Collect(_, gc) => Distance(0, |th.todo|, 1, |th.retired|, ScanSteps(mem, gc))
    case StoreAddRef(_, _) => Distance(1, 0, 0, 0, 2)
    case Exchange(_, _) => Distance(1, 0, 0, 0, 1)
    case CasAddRef(_, _, _) => Distance(1, 0, 0, 0, 20)
  }

  ghost predicate Approaches(mem: Memory, th: Thread, e: Effect) { Closer(ToGo(e.mem, e.th), ToGo(mem, th)) }

  lemma RegisterApproaches(mem: Memory, th: Thread, job: Job, stage: Stage)
    requires HazardSafety.WellFormed(mem, th) && th.pc == Do(job, stage) && HazardSafety.Registering(stage)
    ensures Approaches(mem, th, ExecJob(mem, th, job, stage, false))
  {
  }

  lemma ProtectApproaches(mem: Memory, th: Thread, job: Job, stage: Stage)
    requires HazardSafety.WellFormed(mem, th) && th.pc == Do(job, stage)
    requires stage.ProtectLoad? || stage.ProtectSet? || stage.NextRound?
    ensures Approaches(mem, th, ExecJob(mem, th, job, stage, false))
  {
  }

  lemma CheckApproaches(mem: Memory, th: Thread, job: Job, p: Ptr)
    requires HazardSafety.WellFormed(mem, th) && th.pc == Do(job, ProtectCheck(p))
    requires forall q :: q in mem.cells && q != NULL ==> q in mem.heap && mem.heap[q] > 0
    ensures Approaches(mem, th, ExecJob(mem, th, job, ProtectCheck(p), false))
  {
    assert mem.cells[job.cell] in mem.cells;
  }

  lemma TryApproaches(mem: Memory, th: Thread, job: Job, stage: Stage)
    requires HazardSafety.WellFormed(mem, th) && th.pc == Do(job, stage)
    requires stage.TryLoad? || stage.TryCas? || stage.CellCas?
    ensures Approaches(mem, th, ExecJob(mem, th, job, stage, false))
  {
  }

  lemma GcApproaches(mem: Memory, th: Thread, kept: seq<Ptr>, gc: GcStage)
    requires HazardSafety.WellFormed(mem, th) && HazardSafety.AllEntries(mem.mutators) && th.pc == Collect(kept, gc)
    ensures Approaches(mem, th, ExecGc(mem, th, kept, gc))
  {
    if gc.ScanSlot? { assert HazardSafety.RegistryEntry(mem.mutators[gc.cur - 1], gc.cur - 1); }
  }

  lemma CellsAlive(s: State, t: nat)
    requires HazardSafety.Inv(s) && t < |s.threads|
    ensures forall q :: q in s.mem.cells && q != NULL ==> q in s.mem.heap && s.mem.heap[q] > 0
  {
    forall q | q in s.mem.cells && q != NULL ensures q in s.mem.heap && s.mem.heap[q] > 0 {
      HazardSafety.OwnedIsLive(s, t, q);
    }
  }

  lemma JobApproaches(s: State, t: nat)
    requires HazardSafety.Inv(s) && t < |s.threads| && s.threads[t].pc.Do?
    ensures var th := s.threads[t];
      Approaches(s.mem, th, ExecJob(s.mem, th, th.pc.job, th.pc.stage, false))
  {
    var th := s.threads[t];
    var stage := th.pc.stage;
    assert HazardSafety.WellFormed(s.mem, th);
    if HazardSafety.Registering(stage) {
      RegisterApproaches(s.mem, th, th.pc.job, stage);
    } else if stage.ProtectCheck? {
      CellsAlive(s, t);
      CheckApproaches(s.mem, th, th.pc.job, stage.p);
    } else if stage.TryLoad? || stage.TryCas? || stage.CellCas? {
      TryApproaches(s.mem, th, th.pc.job, stage);
    } else {
      ProtectApproaches(s.mem, th, th.pc.job, stage);
    }
  }

  lemma RestApproaches(mem: Memory, th: Thread)
    requires HazardSafety.WellFormed(mem, th) && !Idle(th) && !th.pc.Do? && !th.pc.Collect?
    ensures Approaches(mem, th, Exec(mem, th, Go(false)))
  {
  }

  /** In every state of every run, each step of a busy thread that nobody interferes with, and whose CASes do not
      fail spuriously, brings it closer to the end of its call. */
  lemma LeftAloneEnds(run: seq<State>, i: nat, t: nat)
    requires IsRun(Init, Next, run) && i < |run| && t < |run[i].threads| && !Idle(run[i].threads[t])
    ensures var s' := Step(run[i], t, Go(false));
      Closer(ToGo(s'.mem, s'.threads[t]), ToGo(run[i].mem, run[i].threads[t]))
  {
    HazardSafety.RunKeepsInv(run, i);
    var s, th := run[i], run[i].threads[t];
    if th.pc.Do? {
      JobApproaches(s, t);
    } else if th.pc.Collect? {
      GcApproaches(s.mem, th, th.pc.kept, th.pc.gc);
    } else {
      RestApproaches(s.mem, th);
    }
  }
}
