/**
 Safety of hazard-pointer reclamation over all runs of `HazardMachine`: exact reference counts, one
 retirement per object, and no access to a destroyed object.
 */
module HazardSafety {
  import opened Counting
  import opened HazardMachine
  import opened Runs

  // ---------------------------------------------------------------------------------------------
  // What the invariant counts

  /** References: `SharedPtr`s and references in flight. Garbage: duties to destroy an object. */
  datatype Ledger = References | Garbage

  function PcShare(l: Ledger, pc: Pc, p: Ptr): nat {
    match l
    case References =>
      (match pc
       case Exchange(_, n) => One(n == p)
       case CasAddRef(_, e, _) => One(e == p)
       case Do(CasJob(_, e, d), _) => One(e == p) + One(d == p)
       case _ => 0)
    case Garbage =>
      (match pc
       case Do(RetireJob(q), _) => One(q == p)
       case Collect(kept, gc) => Occ(kept, p) + One(!gc.GcNext? && gc.obj == p)
       case _ => 0)
  }

  function Share(l: Ledger, th: Thread, p: Ptr): nat {
    PcShare(l, th.pc, p) + (match l
                            case References => th.held[p] + Occ(th.todo, Unlink(p))
                            case Garbage => Occ(th.retired, p))
  }

  function Total(l: Ledger, threads: seq<Thread>, p: Ptr): nat {
    if threads == [] then 0 else Share(l, threads[0], p) + Total(l, threads[1..], p)
  }

  lemma {:induction false} TotalUpdate(l: Ledger, threads: seq<Thread>, t: nat, th: Thread, p: Ptr)
    requires t < |threads|
    ensures Total(l, threads[t := th], p) + Share(l, threads[t], p) == Total(l, threads, p) + Share(l, th, p)
  {
    if t > 0 {
      TotalUpdate(l, threads[1..], t - 1, th, p);
      assert threads[t := th][1..] == threads[1..][t - 1 := th];
    } else {
      assert threads[0 := th][1..] == threads[1..];
    }
  }

  lemma {:induction false} ShareInTotal(l: Ledger, threads: seq<Thread>, t: nat, p: Ptr)
    requires t < |threads|
    ensures Share(l, threads[t], p) <= Total(l, threads, p)
  {
    if t > 0 {
      ShareInTotal(l, threads[1..], t - 1, p);
    }
  }

  /** Cells naming `p` plus references to `p` held by threads. */
  function RefCount(s: State, p: Ptr): nat {
    Occ(s.mem.cells, p) + Total(References, s.threads, p)
  }

  // ---------------------------------------------------------------------------------------------
  // The invariant

  /** The thread is between the re-load of `Protect` and the end of its round. */
  predicate InRound(pc: Pc) {
    pc.Do? && (pc.stage.TryLoad? || pc.stage.TryCas? || pc.stage.CellCas? || pc.stage.NextRound?)
  }

  /** A thread guards a pointer from the re-load of `Protect` until it resets its slot, which is at the
      end of the round or, when the operation has its result, still to do. */
  ghost predicate GuardOk(th: Thread) {
    && (th.guarded != NULL ==> th.mutator > 0 && (InRound(th.pc) || ResetSlot in th.todo))
    && (th.pc.StoreAddRef? || th.pc.Exchange? || th.pc.CasAddRef? ==> th.guarded == NULL)
    && (th.pc.Do? && !th.pc.job.RetireJob? && !InRound(th.pc) ==> th.guarded == NULL)
    && (th.pc.Do? && (th.pc.stage.TryLoad? || th.pc.stage.TryCas?) ==> th.guarded == th.pc.stage.p)
    && (th.pc.Do? && th.pc.stage.CellCas? && th.pc.job.CasJob? ==> th.guarded == th.pc.job.expected)
  }

  /** Null is never counted, held or dropped. */
  ghost predicate NoNulls(th: Thread) {
    && NULL !in th.held
    && Unlink(NULL) !in th.todo
  }

  ghost predicate PcOk(mem: Memory, th: Thread) {
    && th.mutator <= |mem.mutators|
    && match th.pc
       case StoreAddRef(c, n) => c < |mem.cells| && n != NULL && Unlink(n) in th.todo
       case Exchange(c, n) => c < |mem.cells|
       case CasAddRef(c, e, d) => c < |mem.cells| && d != NULL && Unlink(d) in th.todo
       case Do(job, stage) => JobOk(mem, th.mutator, job, stage)
       case Collect(kept, gc) =>
         gc.ScanSlot? ==> 1 <= gc.cur <= gc.head <= |mem.mutators| && gc.k < SLOTS_PER_MUTATOR
       case _ => true
  }

  predicate Registering(stage: Stage) {
    stage.GetMutator? || stage.RegisterLoad? || stage.RegisterCas?
  }

  ghost predicate JobOk(mem: Memory, mutator: nat, job: Job, stage: Stage) {
    && (!job.RetireJob? ==> job.cell < |mem.cells|)
    && (job.RetireJob? ==> Registering(stage))
    && (stage.RegisterLoad? || stage.RegisterCas? ==> mutator == 0)
    && (!Registering(stage) ==> mutator > 0)
    && (stage.TryLoad? || stage.TryCas? ==> stage.p != NULL)
    && (stage.TryCas? ==> stage.seen != 0)
    && (stage.CellCas? ==> job.CasJob?)
    && (job.CasJob? && (stage.TryLoad? || stage.TryCas?) ==> stage.p != job.expected)
  }

  ghost predicate WellFormed(mem: Memory, th: Thread) {
    NoNulls(th) && PcOk(mem, th) && GuardOk(th)
  }

  /** `i` is 0-based, so the 1-based number of the mutator registered before is `i` as well. */
  ghost predicate RegistryEntry(m: Mutator, i: nat) {
    m.next == i && |m.slots| == SLOTS_PER_MUTATOR && m.slots[1] == NULL
  }

  ghost predicate AllEntries(ms: seq<Mutator>) {
    forall i :: 0 <= i < |ms| ==> RegistryEntry(ms[i], i)
  }

  /** Mutators are never unregistered, each belongs to one thread, and `next_` chains them all. */
  ghost predicate Registry(s: State) {
    && AllEntries(s.mem.mutators)
    && (forall t, u :: 0 <= t < u < |s.threads| && s.threads[t].mutator != 0
                       ==> s.threads[t].mutator != s.threads[u].mutator)
  }

  ghost predicate Accounted(s: State) {
    && NULL !in s.mem.heap
    && (forall p :: p != NULL ==> Count(s.mem.heap, p) == RefCount(s, p))
    && (forall p :: Total(Garbage, s.threads, p) == One(p in s.mem.heap && s.mem.heap[p] == 0))
  }

  ghost predicate InSlot(ms: seq<Mutator>, m: nat, p: Ptr) {
    1 <= m <= |ms| && |ms[m - 1].slots| > 0 && ms[m - 1].slots[0] == p
  }

  /** What a thread has published is in its slot, and what it guards stays there. */
  ghost predicate Posted(ms: seq<Mutator>, th: Thread) {
    && (th.pc.Do? && th.pc.stage.ProtectCheck? ==> InSlot(ms, th.mutator, th.pc.stage.p))
    && (th.guarded != NULL ==> InSlot(ms, th.mutator, th.guarded))
  }

  ghost predicate Published(s: State) {
    forall t :: 0 <= t < |s.threads| ==> Posted(s.mem.mutators, s.threads[t])
  }

  /** No object that a thread guards has been destroyed. */
  ghost predicate GuardedAlive(s: State) {
    forall t :: 0 <= t < |s.threads| && s.threads[t].guarded != NULL ==> s.threads[t].guarded in s.mem.heap
  }

  /** The scan has not yet read slot 0 of mutator `m`. */
  ghost predicate StillAhead(gc: GcStage, m: nat) {
    match gc
    case GcNext => true
    case ScanHead(_) => true
    case ScanSlot(_, _, cur, k) => m < cur || (m == cur && k == 0)
    case ScanRecheck(_, _) => false
    case Destroy(_) => false
  }

  /** No scan for an object has passed the slot of a thread that guards it. */
  ghost predicate ScansSound(s: State) {
    forall t, u :: 0 <= t < |s.threads| && 0 <= u < |s.threads| && s.threads[t].guarded != NULL
                   && s.threads[u].pc.Collect? && !s.threads[u].pc.gc.GcNext?
                   && s.threads[u].pc.gc.obj == s.threads[t].guarded
      ==> StillAhead(s.threads[u].pc.gc, s.threads[t].mutator)
  }

  ghost predicate Inv(s: State) {
    && (forall t :: 0 <= t < |s.threads| ==> WellFormed(s.mem, s.threads[t]))
    && Registry(s)
    && Accounted(s)
    && Published(s)
    && GuardedAlive(s)
    && ScansSound(s)
  }

  // ---------------------------------------------------------------------------------------------
  // Reading the ledgers

  /** A pointer that some thread or cell refers to names a live object with a positive counter. */
  lemma OwnedIsLive(s: State, t: nat, p: Ptr)
    requires Accounted(s) && t < |s.threads| && p != NULL
    requires Share(References, s.threads[t], p) > 0 || p in s.mem.cells
    ensures p in s.mem.heap && s.mem.heap[p] > 0
  {
    ShareInTotal(References, s.threads, t, p);
    OccMember(s.mem.cells, p);
    assert Count(s.mem.heap, p) == RefCount(s, p);
  }

  /** An object somebody has the duty to destroy is there and its counter is 0. */
  lemma DutyIsDead(s: State, t: nat, p: Ptr)
    requires Accounted(s) && t < |s.threads|
    requires Share(Garbage, s.threads[t], p) > 0
    ensures p in s.mem.heap && s.mem.heap[p] == 0
  {
    ShareInTotal(Garbage, s.threads, t, p);
  }

  // ---------------------------------------------------------------------------------------------
  // Every step balances both ledgers

  /** What a step adds to the thread's references and to the cells, it adds to the counters. */
  ghost predicate RefsBalanced(mem: Memory, th: Thread, e: Effect, p: Ptr) {
    Share(References, e.th, p) + Occ(e.mem.cells, p) + Count(mem.heap, p)
    == Share(References, th, p) + Occ(mem.cells, p) + Count(e.mem.heap, p)
  }

  /** An object's counter is 0 exactly while somebody has the duty to destroy it. */
  ghost predicate DutiesBalanced(mem: Memory, th: Thread, e: Effect, p: Ptr) {
    Share(Garbage, e.th, p) + One(p in mem.heap && mem.heap[p] == 0)
    == Share(Garbage, th, p) + One(p in e.mem.heap && e.mem.heap[p] == 0)
  }

  lemma DropShare(q: Ptr, rest: seq<Todo>, p: Ptr)
    requires p != NULL
    ensures Occ(Drop(q) + rest, Unlink(p)) == One(q == p) + Occ(rest, Unlink(p))
  {
    OccConcat(Drop(q), rest, Unlink(p));
  }

  lemma LeaveShare(job: Job, rest: seq<Todo>, p: Ptr)
    requires p != NULL
    ensures Occ(Leave(job) + rest, Unlink(p)) == PcShare(References, Do(job, GetMutator), p) + Occ(rest, Unlink(p))
  {
    match job
    case CasJob(_, e, d) =>
      assert Leave(job) + rest == Drop(d) + (Drop(e) + ([ResetSlot] + rest));
      DropShare(d, Drop(e) + ([ResetSlot] + rest), p);
      DropShare(e, [ResetSlot] + rest, p);
    case _ =>
  }

  lemma TakenShare(held: multiset<Ptr>, e: Ptr, d: Ptr, p: Ptr)
    requires Own(e) + Own(d) <= held && p != NULL
    ensures (held - (Own(e) + Own(d)))[p] + One(e == p) + One(d == p) == held[p]
  {
    assert (Own(e) + Own(d))[p] == One(e == p) + One(d == p);
  }

  lemma RefsCompareExchange(mem: Memory, th: Thread, c: nat, e: Ptr, d: Ptr, p: Ptr)
    requires Enabled(mem, th, CompareExchange(c, e, d)) && p != NULL
    ensures RefsBalanced(mem, th, Call(mem, th, CompareExchange(c, e, d)), p)
  {
    TakenShare(th.held, e, d, p);
    DropAlone(d, p);
    CallShare(Call(mem, th, CompareExchange(c, e, d)).th, e, d, p);
    assert Share(References, th, p) == th.held[p];
  }

  lemma DropAlone(q: Ptr, p: Ptr)
    requires p != NULL
    ensures Occ(Drop(q), Unlink(p)) == One(q == p)
  {
    DropShare(q, [], p);
    assert Drop(q) + [] == Drop(q);
  }

  lemma CallShare(th: Thread, e: Ptr, d: Ptr, p: Ptr)
    requires th.pc.CasAddRef? || th.pc.Do?
    requires th.pc.CasAddRef? ==> th.pc.expected == e
    requires th.pc.Do? ==> d == NULL && th.pc.job.CasJob? && th.pc.job.expected == e && th.pc.job.desired == d
    requires p != NULL && th.todo == Drop(d) && Occ(Drop(d), Unlink(p)) == One(d == p)
    ensures Share(References, th, p) == One(e == p) + th.held[p] + One(d == p)
  {
  }

  lemma RefsCall(mem: Memory, th: Thread, a: Act, p: Ptr)
    requires Enabled(mem, th, a) && !a.Go? && p != NULL
    requires a.Copy? ==> a.p in mem.heap
    ensures RefsBalanced(mem, th, Call(mem, th, a), p)
  {
    if a.CompareExchange? {
      RefsCompareExchange(mem, th, a.cell, a.expected, a.desired, p);
    } else if a.Reset? || a.Store? {
      RefsGiveUp(mem, th, a, p);
    }
  }

  lemma RefsGiveUp(mem: Memory, th: Thread, a: Act, p: Ptr)
    requires Enabled(mem, th, a) && (a.Reset? || a.Store?) && p != NULL
    ensures RefsBalanced(mem, th, Call(mem, th, a), p)
  {
    var q := if a.Reset? then a.p else a.target;
    DropAlone(q, p);
  }

  lemma RefsTodo(mem: Memory, th: Thread, p: Ptr)
    requires th.todo != [] && th.pc == Ready && p != NULL
    requires th.todo[0].Unlink? ==> th.todo[0].p in mem.heap
    ensures RefsBalanced(mem, th, ExecTodo(mem, th), p)
  {
  }

  lemma RefsStore(mem: Memory, th: Thread, p: Ptr)
    requires p != NULL
    requires th.pc.StoreAddRef? ==> th.pc.target in mem.heap
    requires th.pc.CasAddRef? ==> th.pc.desired in mem.heap
    ensures RefsBalanced(mem, th, ExecStore(mem, th), p)
  {
    if th.pc.Exchange? && th.pc.cell < |mem.cells| {
      DropShare(mem.cells[th.pc.cell], th.todo, p);
      OccUpdate(mem.cells, th.pc.cell, th.pc.target, p);
    }
  }

  lemma RefsChecked(th: Thread, job: Job, q: Ptr, same: bool, p: Ptr)
    requires th.pc == Do(job, ProtectCheck(q)) && p != NULL
    ensures Share(References, Checked(th, job, q, same), p) == Share(References, th, p)
  {
    LeaveShare(job, th.todo, p);
  }

  lemma RefsAcquired(th: Thread, job: Job, q: Ptr, p: Ptr)
    requires th.pc.Do? && th.pc.job == job && p != NULL
    ensures Share(References, Acquired(th, job, q), p) == Share(References, th, p) + One(p == q)
  {
    LeaveShare(job, th.todo, p);
  }

  lemma RefsSwapped(th: Thread, job: Job, p: Ptr)
    requires th.pc.Do? && th.pc.job == job && job.CasJob? && p != NULL
    ensures Share(References, Swapped(th, job), p) + One(job.desired == p)
            == Share(References, th, p) + One(job.expected == p)
  {
    DropShare(job.expected, [ResetSlot] + th.todo, p);
  }

  lemma RefsTryCas(mem: Memory, th: Thread, job: Job, stage: Stage, spurious: bool, p: Ptr)
    requires th.pc == Do(job, stage) && stage.TryCas? && stage.p in mem.heap && p != NULL
    ensures RefsBalanced(mem, th, ExecJob(mem, th, job, stage, spurious), p)
  {
    RefsAcquired(th, job, stage.p, p);
  }

  lemma RefsCellCas(mem: Memory, th: Thread, job: Job, stage: Stage, spurious: bool, p: Ptr)
    requires th.pc == Do(job, stage) && stage.CellCas? && p != NULL
    ensures RefsBalanced(mem, th, ExecJob(mem, th, job, stage, spurious), p)
  {
    if HasCell(mem, job) && job.CasJob? {
      RefsSwapped(th, job, p);
      OccUpdate(mem.cells, job.cell, job.desired, p);
    }
  }

  lemma RefsRegister(mem: Memory, th: Thread, job: Job, stage: Stage, spurious: bool, p: Ptr)
    requires th.pc == Do(job, stage) && p != NULL
    requires stage.GetMutator? || stage.RegisterLoad? || stage.RegisterCas?
    ensures RefsBalanced(mem, th, ExecJob(mem, th, job, stage, spurious), p)
  {
  }

  lemma RefsQuiet(mem: Memory, th: Thread, job: Job, stage: Stage, spurious: bool, p: Ptr)
    requires th.pc == Do(job, stage) && p != NULL
    requires stage.ProtectLoad? || stage.ProtectSet? || stage.TryLoad? || stage.NextRound?
    requires !job.RetireJob?
    ensures RefsBalanced(mem, th, ExecJob(mem, th, job, stage, spurious), p)
  {
  }

  lemma RefsJob(mem: Memory, th: Thread, job: Job, stage: Stage, spurious: bool, p: Ptr)
    requires th.pc == Do(job, stage) && p != NULL
    requires job.RetireJob? ==> stage.GetMutator? || stage.RegisterLoad? || stage.RegisterCas?
    requires stage.TryCas? ==> stage.p in mem.heap
    ensures RefsBalanced(mem, th, ExecJob(mem, th, job, stage, spurious), p)
  {
    if stage.ProtectCheck? {
      if HasCell(mem, job) { RefsChecked(th, job, stage.p, mem.cells[job.cell] == stage.p, p); }
    } else if stage.TryCas? {
      RefsTryCas(mem, th, job, stage, spurious, p);
    } else if stage.CellCas? {
      RefsCellCas(mem, th, job, stage, spurious, p);
    } else if stage.GetMutator? || stage.RegisterLoad? || stage.RegisterCas? {
      RefsRegister(mem, th, job, stage, spurious, p);
    } else {
      RefsQuiet(mem, th, job, stage, spurious, p);
    }
  }

  lemma RefsGc(mem: Memory, th: Thread, kept: seq<Ptr>, gc: GcStage, p: Ptr)
    requires th.pc == Collect(kept, gc)
    requires gc.Destroy? ==> gc.obj in mem.heap && mem.heap[gc.obj] == 0
    ensures RefsBalanced(mem, th, ExecGc(mem, th, kept, gc), p)
  {
  }

  lemma DutiesCall(mem: Memory, th: Thread, a: Act, p: Ptr)
    requires Enabled(mem, th, a) && !a.Go?
    requires a.Copy? ==> a.p in mem.heap && mem.heap[a.p] > 0
    ensures DutiesBalanced(mem, th, Call(mem, th, a), p)
  {
  }

  lemma DutiesStore(mem: Memory, th: Thread, p: Ptr)
    requires th.pc.StoreAddRef? || th.pc.Exchange? || th.pc.CasAddRef?
    requires th.pc.StoreAddRef? ==> th.pc.target in mem.heap && mem.heap[th.pc.target] > 0
    requires th.pc.CasAddRef? ==> th.pc.desired in mem.heap && mem.heap[th.pc.desired] > 0
    ensures DutiesBalanced(mem, th, ExecStore(mem, th), p)
  {
  }

  lemma DutiesJob(mem: Memory, th: Thread, job: Job, stage: Stage, spurious: bool, p: Ptr)
    requires th.pc == Do(job, stage)
    requires job.RetireJob? ==> stage.GetMutator? || stage.RegisterLoad? || stage.RegisterCas?
    requires stage.TryCas? ==> stage.p in mem.heap && mem.heap[stage.p] >= 0 && stage.seen != 0
    ensures DutiesBalanced(mem, th, ExecJob(mem, th, job, stage, spurious), p)
  {
    if stage.GetMutator? {
      DutiesGetMutator(mem, th, job, spurious, p);
    } else if stage.TryCas? {
      DutiesTryCas(mem, th, job, stage, spurious, p);
    }
  }

  lemma DutiesGetMutator(mem: Memory, th: Thread, job: Job, spurious: bool, p: Ptr)
    requires th.pc == Do(job, GetMutator)
    ensures DutiesBalanced(mem, th, ExecJob(mem, th, job, GetMutator, spurious), p)
  {
    if job.RetireJob? { OccConcat(th.retired, [job.obj], p); }
  }

  lemma DutiesTryCas(mem: Memory, th: Thread, job: Job, stage: Stage, spurious: bool, p: Ptr)
    requires th.pc == Do(job, stage) && stage.TryCas? && !job.RetireJob?
    requires stage.p in mem.heap && mem.heap[stage.p] >= 0 && stage.seen != 0
    ensures DutiesBalanced(mem, th, ExecJob(mem, th, job, stage, spurious), p)
  {
  }

  lemma DutiesScan(mem: Memory, th: Thread, kept: seq<Ptr>, gc: GcStage, p: Ptr)
    requires th.pc == Collect(kept, gc) && gc.ScanSlot?
    ensures DutiesBalanced(mem, th, ExecGc(mem, th, kept, gc), p)
  {
    OccConcat(kept, [gc.obj], p);
    var e := ExecGc(mem, th, kept, gc);
    assert e.mem == mem && e.th.retired == th.retired;
    assert PcShare(Garbage, e.th.pc, p) == Occ(kept, p) + One(gc.obj == p);
  }

  lemma DutiesNext(mem: Memory, th: Thread, kept: seq<Ptr>, p: Ptr)
    requires th.pc == Collect(kept, GcNext)
    ensures DutiesBalanced(mem, th, ExecGc(mem, th, kept, GcNext), p)
  {
  }

  lemma DutiesGc(mem: Memory, th: Thread, kept: seq<Ptr>, gc: GcStage, p: Ptr)
    requires th.pc == Collect(kept, gc)
    requires gc.Destroy? ==> gc.obj in mem.heap && mem.heap[gc.obj] == 0
    ensures DutiesBalanced(mem, th, ExecGc(mem, th, kept, gc), p)
  {
    if gc.ScanSlot? { DutiesScan(mem, th, kept, gc, p); }
    else if gc.GcNext? { DutiesNext(mem, th, kept, p); }
  }

  // ---------------------------------------------------------------------------------------------
  // Every step keeps the invariant

  lemma ExecBalanced(s: State, t: nat, a: Act, p: Ptr)
    requires Accounted(s) && GuardedAlive(s) && t < |s.threads| && WellFormed(s.mem, s.threads[t])
    requires Enabled(s.mem, s.threads[t], a)
    ensures p != NULL ==> RefsBalanced(s.mem, s.threads[t], Exec(s.mem, s.threads[t], a), p)
    ensures DutiesBalanced(s.mem, s.threads[t], Exec(s.mem, s.threads[t], a), p)
  {
    var th := s.threads[t];
    if !a.Go? {
      if a.Copy? { OwnedIsLive(s, t, a.p); }
      if p != NULL { RefsCall(s.mem, th, a, p); }
      DutiesCall(s.mem, th, a, p);
    } else if th.pc.Ready? {
      if th.todo[0].Unlink? { OwnedIsLive(s, t, th.todo[0].p); }
      if p != NULL { RefsTodo(s.mem, th, p); }
    } else if th.pc.Do? {
      if p != NULL { RefsJob(s.mem, th, th.pc.job, th.pc.stage, a.spurious, p); }
      if th.pc.stage.TryCas? {
        assert th.guarded == th.pc.stage.p;
        CounterNotNegative(s, th.pc.stage.p);
      }
      DutiesJob(s.mem, th, th.pc.job, th.pc.stage, a.spurious, p);
    } else if th.pc.Collect? {
      if th.pc.gc.Destroy? { DutyIsDead(s, t, th.pc.gc.obj); }
      if p != NULL { RefsGc(s.mem, th, th.pc.kept, th.pc.gc, p); }
      DutiesGc(s.mem, th, th.pc.kept, th.pc.gc, p);
    } else {
      StoreTargetLive(s, t);
      if p != NULL { RefsStore(s.mem, th, p); }
      DutiesStore(s.mem, th, p);
    }
  }

  lemma CounterNotNegative(s: State, p: Ptr)
    requires Accounted(s) && p != NULL && p in s.mem.heap
    ensures s.mem.heap[p] >= 0
  {
    assert Count(s.mem.heap, p) == RefCount(s, p);
  }

  /** The caller's `SharedPtr` parameter keeps the object alive while its reference is taken. */
  lemma StoreTargetLive(s: State, t: nat)
    requires Accounted(s) && t < |s.threads| && WellFormed(s.mem, s.threads[t])
    ensures s.threads[t].pc.StoreAddRef? ==>
      s.threads[t].pc.target in s.mem.heap && s.mem.heap[s.threads[t].pc.target] > 0
    ensures s.threads[t].pc.CasAddRef? ==>
      s.threads[t].pc.desired in s.mem.heap && s.mem.heap[s.threads[t].pc.desired] > 0
  {
    var th := s.threads[t];
    if th.pc.StoreAddRef? {
      OccMember(th.todo, Unlink(th.pc.target));
      OwnedIsLive(s, t, th.pc.target);
    } else if th.pc.CasAddRef? {
      OccMember(th.todo, Unlink(th.pc.desired));
      OwnedIsLive(s, t, th.pc.desired);
    }
  }

  lemma StepCounts(s: State, t: nat, a: Act, p: Ptr)
    requires Accounted(s) && GuardedAlive(s) && t < |s.threads| && WellFormed(s.mem, s.threads[t])
    requires Enabled(s.mem, s.threads[t], a)
    requires p != NULL ==> Count(s.mem.heap, p) == RefCount(s, p)
    requires Total(Garbage, s.threads, p) == One(p in s.mem.heap && s.mem.heap[p] == 0)
    ensures var s' := Step(s, t, a);
      && (p != NULL ==> Count(s'.mem.heap, p) == RefCount(s', p))
      && Total(Garbage, s'.threads, p) == One(p in s'.mem.heap && s'.mem.heap[p] == 0)
  {
    var e := Exec(s.mem, s.threads[t], a);
    ExecBalanced(s, t, a, p);
    TotalUpdate(References, s.threads, t, e.th, p);
    TotalUpdate(Garbage, s.threads, t, e.th, p);
  }

  lemma StepAccounted(s: State, t: nat, a: Act)
    requires Inv(s) && t < |s.threads| && Enabled(s.mem, s.threads[t], a)
    ensures Accounted(Step(s, t, a))
  {
    var s' := Step(s, t, a);
    forall p: Ptr
      ensures p != NULL ==> Count(s'.mem.heap, p) == RefCount(s', p)
      ensures Total(Garbage, s'.threads, p) == One(p in s'.mem.heap && s'.mem.heap[p] == 0)
    {
      StepCounts(s, t, a, p);
    }
    assert NULL !in s'.mem.heap by { KeysKept(s.mem, s.threads[t], a); }
  }

  lemma KeysKept(mem: Memory, th: Thread, a: Act)
    requires Enabled(mem, th, a)
    ensures Exec(mem, th, a).mem.heap.Keys <= mem.heap.Keys + (if a.MakeShared? then {a.p} else {})
  {
  }

  /** A step changes no other thread's slot and never unregisters a mutator. */
  ghost predicate OnlyOwnSlot(ms: seq<Mutator>, ms': seq<Mutator>, m: nat) {
    && |ms| <= |ms'| <= |ms| + 1
    && forall i :: 0 <= i < |ms| && i != m - 1 ==> ms'[i] == ms[i]
  }

  /** Mutators after a step of a thread that has, or gets, number `m`. */
  ghost predicate MutatorsKept(mem: Memory, th: Thread, e: Effect) {
    && OnlyOwnSlot(mem.mutators, e.mem.mutators, th.mutator) && AllEntries(e.mem.mutators)
    && (e.th.mutator == th.mutator
        || (th.mutator == 0 && e.th.mutator == |e.mem.mutators| == |mem.mutators| + 1))
  }

  lemma JobMutators(mem: Memory, th: Thread, job: Job, stage: Stage, spurious: bool)
    requires th.pc == Do(job, stage) && PcOk(mem, th) && AllEntries(mem.mutators)
    ensures MutatorsKept(mem, th, ExecJob(mem, th, job, stage, spurious))
  {
  }

  lemma TodoMutators(mem: Memory, th: Thread)
    requires th.todo != [] && th.pc == Ready && AllEntries(mem.mutators)
    ensures MutatorsKept(mem, th, ExecTodo(mem, th))
  {
  }

  lemma ExecMutators(mem: Memory, th: Thread, a: Act)
    requires Enabled(mem, th, a) && WellFormed(mem, th) && AllEntries(mem.mutators)
    ensures MutatorsKept(mem, th, Exec(mem, th, a))
  {
    if a.Go? && th.pc.Do? {
      JobMutators(mem, th, th.pc.job, th.pc.stage, a.spurious);
    } else if a.Go? && th.pc == Ready {
      TodoMutators(mem, th);
    }
  }

  lemma LeaveNoNulls(job: Job, rest: seq<Todo>)
    requires Unlink(NULL) !in rest
    ensures Unlink(NULL) !in Leave(job) + rest
  {
  }

  lemma CallNoNulls(mem: Memory, th: Thread, a: Act)
    requires Enabled(mem, th, a) && !a.Go? && NoNulls(th)
    ensures NoNulls(Call(mem, th, a).th)
  {
  }

  lemma CasNoNulls(mem: Memory, th: Thread, job: Job, spurious: bool)
    requires NoNulls(th)
    ensures NoNulls(ExecJob(mem, th, job, CellCas, spurious).th)
  {
  }

  lemma JobNoNulls(mem: Memory, th: Thread, job: Job, stage: Stage, spurious: bool)
    requires NoNulls(th)
    ensures NoNulls(ExecJob(mem, th, job, stage, spurious).th)
  {
    if stage.CellCas? {
      CasNoNulls(mem, th, job, spurious);
    } else if stage.ProtectCheck? || stage.TryCas? {
      LeaveNoNulls(job, th.todo);
    }
  }

  lemma ExecNoNulls(mem: Memory, th: Thread, a: Act)
    requires Enabled(mem, th, a) && NoNulls(th)
    ensures NoNulls(Exec(mem, th, a).th)
  {
    if !a.Go? {
      CallNoNulls(mem, th, a);
    } else if th.pc.Do? {
      JobNoNulls(mem, th, th.pc.job, th.pc.stage, a.spurious);
    }
  }

  lemma JobPcOk(mem: Memory, th: Thread, job: Job, stage: Stage, spurious: bool)
    requires th.pc == Do(job, stage) && PcOk(mem, th)
    ensures PcOk(ExecJob(mem, th, job, stage, spurious).mem, ExecJob(mem, th, job, stage, spurious).th)
  {
    match stage
    case ProtectCheck(p) =>
    case TryCas(p, _) =>
    case _ =>
  }

  lemma GcPcOk(mem: Memory, th: Thread, kept: seq<Ptr>, gc: GcStage)
    requires th.pc == Collect(kept, gc) && PcOk(mem, th)
    requires AllEntries(mem.mutators)
    ensures PcOk(ExecGc(mem, th, kept, gc).mem, ExecGc(mem, th, kept, gc).th)
  {
  }

  lemma CallPcOk(mem: Memory, th: Thread, a: Act)
    requires Enabled(mem, th, a) && !a.Go? && NoNulls(th) && PcOk(mem, th)
    ensures PcOk(Call(mem, th, a).mem, Call(mem, th, a).th)
  {
  }

  lemma TodoPcOk(mem: Memory, th: Thread)
    requires th.todo != [] && th.pc == Ready && PcOk(mem, th)
    ensures PcOk(ExecTodo(mem, th).mem, ExecTodo(mem, th).th)
  {
  }

  lemma StorePcOk(mem: Memory, th: Thread)
    requires PcOk(mem, th)
    ensures PcOk(ExecStore(mem, th).mem, ExecStore(mem, th).th)
  {
  }

  lemma ExecPcOk(mem: Memory, th: Thread, a: Act)
    requires Enabled(mem, th, a) && WellFormed(mem, th)
    requires AllEntries(mem.mutators)
    ensures PcOk(Exec(mem, th, a).mem, Exec(mem, th, a).th)
  {
    if !a.Go? {
      CallPcOk(mem, th, a);
    } else if th.pc.Do? {
      JobPcOk(mem, th, th.pc.job, th.pc.stage, a.spurious);
    } else if th.pc.Collect? {
      GcPcOk(mem, th, th.pc.kept, th.pc.gc);
    } else if th.pc == Ready {
      TodoPcOk(mem, th);
    } else {
      StorePcOk(mem, th);
    }
  }

  lemma CallGuardOk(mem: Memory, th: Thread, a: Act)
    requires Enabled(mem, th, a) && !a.Go? && GuardOk(th)
    ensures GuardOk(Call(mem, th, a).th)
  {
  }

  lemma JobGuardOk(mem: Memory, th: Thread, job: Job, stage: Stage, spurious: bool)
    requires th.pc == Do(job, stage) && PcOk(mem, th) && GuardOk(th)
    ensures GuardOk(ExecJob(mem, th, job, stage, spurious).th)
  {
    assert ResetSlot in Leave(job) + th.todo;
    match stage
    case ProtectCheck(p) =>
    case TryCas(p, _) =>
    case CellCas =>
    case _ =>
  }

  lemma TodoGuardOk(mem: Memory, th: Thread)
    requires th.todo != [] && th.pc == Ready && GuardOk(th)
    ensures GuardOk(ExecTodo(mem, th).th)
  {
    assert th.todo == [th.todo[0]] + th.todo[1..];
  }

  lemma ExecGuardOk(mem: Memory, th: Thread, a: Act)
    requires Enabled(mem, th, a) && WellFormed(mem, th)
    ensures GuardOk(Exec(mem, th, a).th)
  {
    if !a.Go? {
      CallGuardOk(mem, th, a);
    } else if th.pc.Ready? {
      TodoGuardOk(mem, th);
    } else if th.pc.Do? {
      JobGuardOk(mem, th, th.pc.job, th.pc.stage, a.spurious);
    }
  }

  lemma PcOkGrows(mem: Memory, mem': Memory, th: Thread)
    requires PcOk(mem, th) && |mem'.cells| == |mem.cells| && |mem.mutators| <= |mem'.mutators|
    ensures PcOk(mem', th)
  {
  }

  lemma StepWellFormed(s: State, t: nat, a: Act)
    requires Inv(s) && t < |s.threads| && Enabled(s.mem, s.threads[t], a)
    ensures forall u :: 0 <= u < |s.threads| ==> WellFormed(Step(s, t, a).mem, Step(s, t, a).threads[u])
  {
    ExecPcOk(s.mem, s.threads[t], a);
    ExecGuardOk(s.mem, s.threads[t], a);
    ExecNoNulls(s.mem, s.threads[t], a);
    ExecMutators(s.mem, s.threads[t], a);
    forall u | 0 <= u < |s.threads| && u != t
      ensures WellFormed(Step(s, t, a).mem, Step(s, t, a).threads[u])
    {
      PcOkGrows(s.mem, Step(s, t, a).mem, s.threads[u]);
    }
  }

  lemma StepRegistry(s: State, t: nat, a: Act)
    requires Inv(s) && t < |s.threads| && Enabled(s.mem, s.threads[t], a)
    ensures Registry(Step(s, t, a))
  {
    ExecMutators(s.mem, s.threads[t], a);
    assert forall u :: 0 <= u < |s.threads| ==> s.threads[u].mutator <= |s.mem.mutators|;
  }

  /** The slot keeps what the thread put there until the thread itself resets it. */
  lemma JobPosts(mem: Memory, th: Thread, job: Job, stage: Stage, spurious: bool)
    requires th.pc == Do(job, stage) && PcOk(mem, th) && GuardOk(th) && Posted(mem.mutators, th)
    requires AllEntries(mem.mutators)
    ensures var e := ExecJob(mem, th, job, stage, spurious); Posted(e.mem.mutators, e.th)
  {
    match stage
    case ProtectSet(p) =>
    case ProtectCheck(p) =>
    case TryCas(p, _) =>
    case _ =>
  }

  lemma ExecPosts(mem: Memory, th: Thread, a: Act)
    requires Enabled(mem, th, a) && WellFormed(mem, th) && Posted(mem.mutators, th)
    requires AllEntries(mem.mutators)
    ensures var e := Exec(mem, th, a); Posted(e.mem.mutators, e.th)
  {
    if a.Go? && th.pc.Do? {
      JobPosts(mem, th, th.pc.job, th.pc.stage, a.spurious);
    }
  }

  lemma StepPublished(s: State, t: nat, a: Act)
    requires Inv(s) && t < |s.threads| && Enabled(s.mem, s.threads[t], a)
    ensures Published(Step(s, t, a))
  {
    var s' := Step(s, t, a);
    ExecMutators(s.mem, s.threads[t], a);
    ExecPosts(s.mem, s.threads[t], a);
    forall u | 0 <= u < |s'.threads| && u != t ensures Posted(s'.mem.mutators, s'.threads[u]) {
      assert Posted(s.mem.mutators, s.threads[u]) && s'.threads[u] == s.threads[u];
      if s.threads[u].mutator > 0 { SlotKept(s, t, a, u); }
    }
  }

  lemma SlotKept(s: State, t: nat, a: Act, u: nat)
    requires Registry(s) && t < |s.threads| && u < |s.threads| && t != u && Enabled(s.mem, s.threads[t], a)
    requires OnlyOwnSlot(s.mem.mutators, Exec(s.mem, s.threads[t], a).mem.mutators, s.threads[t].mutator)
    requires 1 <= s.threads[u].mutator <= |s.mem.mutators|
    ensures Step(s, t, a).mem.mutators[s.threads[u].mutator - 1] == s.mem.mutators[s.threads[u].mutator - 1]
  {
    assert s.threads[u].mutator != s.threads[t].mutator by {
      if u < t { assert s.threads[u].mutator != s.threads[t].mutator; }
    }
  }

  /** A thread starts to guard a pointer only where a cell holds it, so never garbage. */
  lemma ExecGuards(mem: Memory, th: Thread, a: Act)
    requires Enabled(mem, th, a) && WellFormed(mem, th)
    requires Exec(mem, th, a).th.guarded != NULL
    ensures Exec(mem, th, a).th.mutator == th.mutator
    ensures Exec(mem, th, a).th.guarded == th.guarded
            || (Exec(mem, th, a).th.guarded in mem.cells && a.Go? && th.pc.Do? && Exec(mem, th, a).mem == mem
                && Exec(mem, th, a).th.pc.Do?)
  {
  }

  lemma StepGuardedAlive(s: State, t: nat, a: Act)
    requires Inv(s) && t < |s.threads| && Enabled(s.mem, s.threads[t], a)
    ensures GuardedAlive(Step(s, t, a))
  {
    var s' := Step(s, t, a);
    forall u | 0 <= u < |s'.threads| && s'.threads[u].guarded != NULL
      ensures s'.threads[u].guarded in s'.mem.heap
    {
      if u == t { ExecGuards(s.mem, s.threads[t], a); }
      if s'.threads[u].guarded == s.threads[u].guarded {
        ExecKeeps(s.mem, s.threads[t], a, s.threads[u].guarded);
      } else {
        OwnedIsLive(s, t, s'.threads[t].guarded);
      }
    }
  }

  /** Only `Destroy` takes an object away. */
  lemma ExecKeeps(mem: Memory, th: Thread, a: Act, p: Ptr)
    requires Enabled(mem, th, a) && p in mem.heap
    requires th.pc.Collect? && th.pc.gc.Destroy? ==> th.pc.gc.obj != p
    ensures p in Exec(mem, th, a).mem.heap
  {
  }

  /** A scan that moves on past slot 0 of mutator `m` has not found its object there. */
  lemma ScanAdvances(mem: Memory, th: Thread, kept: seq<Ptr>, gc: GcStage, m: nat)
    requires th.pc == Collect(kept, gc) && PcOk(mem, th)
    requires AllEntries(mem.mutators)
    requires 1 <= m <= |mem.mutators|
    requires !gc.GcNext? ==> StillAhead(gc, m) && InSlot(mem.mutators, m, gc.obj)
    ensures var pc := ExecGc(mem, th, kept, gc).th.pc; pc.Collect? ==> StillAhead(pc.gc, m)
  {
  }

  lemma JobStartsNoScan(mem: Memory, th: Thread, job: Job, stage: Stage, spurious: bool)
    requires th.pc == Do(job, stage)
    ensures var pc := ExecJob(mem, th, job, stage, spurious).th.pc; pc.Collect? ==> pc.gc.GcNext?
  {
  }

  lemma CallStartsNoScan(mem: Memory, th: Thread, a: Act)
    requires Enabled(mem, th, a) && !a.Go?
    ensures !Call(mem, th, a).th.pc.Collect?
  {
  }

  /** Scans start only inside `Gc`. */
  lemma NoScanStarts(mem: Memory, th: Thread, a: Act)
    requires Enabled(mem, th, a) && !(a.Go? && th.pc.Collect?)
    ensures var pc := Exec(mem, th, a).th.pc; pc.Collect? ==> pc.gc.GcNext?
  {
    if !a.Go? {
      CallStartsNoScan(mem, th, a);
    } else if th.pc.Do? {
      JobStartsNoScan(mem, th, th.pc.job, th.pc.stage, a.spurious);
    }
  }

  lemma GcScanStarts(mem: Memory, th: Thread, kept: seq<Ptr>, gc: GcStage, m: nat)
    requires th.pc == Collect(kept, gc) && PcOk(mem, th)
    ensures var pc := ExecGc(mem, th, kept, gc).th.pc;
      pc.Collect? && !pc.gc.GcNext? ==> StillAhead(pc.gc, m) || (!gc.GcNext? && gc.obj == pc.gc.obj)
  {
  }

  /** A scan of a new object has passed nothing yet. */
  lemma ScanStarts(mem: Memory, th: Thread, a: Act, m: nat)
    requires Enabled(mem, th, a) && WellFormed(mem, th)
    ensures var pc := Exec(mem, th, a).th.pc;
      pc.Collect? && !pc.gc.GcNext? ==>
        || StillAhead(pc.gc, m)
        || (a.Go? && th.pc.Collect? && !th.pc.gc.GcNext? && th.pc.gc.obj == pc.gc.obj)
  {
    if a.Go? && th.pc.Collect? {
      GcScanStarts(mem, th, th.pc.kept, th.pc.gc, m);
    } else {
      NoScanStarts(mem, th, a);
    }
  }

  lemma StepScansSound(s: State, t: nat, a: Act)
    requires Inv(s) && t < |s.threads| && Enabled(s.mem, s.threads[t], a)
    ensures ScansSound(Step(s, t, a))
  {
    var s' := Step(s, t, a);
    forall u, w | 0 <= u < |s'.threads| && 0 <= w < |s'.threads| && s'.threads[u].guarded != NULL
                  && s'.threads[w].pc.Collect? && !s'.threads[w].pc.gc.GcNext?
                  && s'.threads[w].pc.gc.obj == s'.threads[u].guarded
      ensures StillAhead(s'.threads[w].pc.gc, s'.threads[u].mutator)
    {
      if u == t { ExecGuards(s.mem, s.threads[t], a); }
      if s'.threads[u].guarded != s.threads[u].guarded {
        OwnedIsLive(s, t, s'.threads[t].guarded);
        DutyIsDead(s, w, s'.threads[t].guarded);
      } else if w == t {
        ScanStarts(s.mem, s.threads[t], a, s.threads[u].mutator);
        if !StillAhead(s'.threads[w].pc.gc, s'.threads[u].mutator) {
          assert Posted(s.mem.mutators, s.threads[u]);
          ScanAdvances(s.mem, s.threads[t], s.threads[t].pc.kept, s.threads[t].pc.gc, s.threads[u].mutator);
        }
      }
    }
  }

  lemma StepKeepsInv(s: State, t: nat, a: Act)
    requires Inv(s) && t < |s.threads| && Enabled(s.mem, s.threads[t], a)
    ensures Inv(Step(s, t, a))
  {
    StepWellFormed(s, t, a);
    StepRegistry(s, t, a);
    StepAccounted(s, t, a);
    StepPublished(s, t, a);
    StepGuardedAlive(s, t, a);
    StepScansSound(s, t, a);
  }

  lemma GiveTotals(s: State, t: nat, u: nat, p: Ptr, l: Ledger, q: Ptr)
    requires MayGive(s, t, u, p)
    ensures Total(l, Give(s, t, u, p).threads, q) == Total(l, s.threads, q)
  {
    var giver := s.threads[t].(held := s.threads[t].held - multiset{p});
    var mid := s.threads[t := giver];
    TotalUpdate(l, s.threads, t, giver, q);
    TotalUpdate(l, mid, u, mid[u].(held := mid[u].held + multiset{p}), q);
  }

  lemma GiveAccounted(s: State, t: nat, u: nat, p: Ptr)
    requires Accounted(s) && MayGive(s, t, u, p)
    ensures Accounted(Give(s, t, u, p))
  {
    var s' := Give(s, t, u, p);
    forall q: Ptr
      ensures q != NULL ==> Count(s'.mem.heap, q) == RefCount(s', q)
      ensures Total(Garbage, s'.threads, q) == One(q in s'.mem.heap && s'.mem.heap[q] == 0)
    {
      GiveTotals(s, t, u, p, References, q);
      GiveTotals(s, t, u, p, Garbage, q);
      assert q != NULL ==> Count(s.mem.heap, q) == RefCount(s, q);
    }
  }

  /** Only what the threads hold differs. */
  ghost predicate SameButHeld(s: State, s': State) {
    && s'.mem == s.mem && |s'.threads| == |s.threads|
    && forall i :: 0 <= i < |s'.threads| ==>
         s'.threads[i] == s.threads[i].(held := s'.threads[i].held) && NULL !in s'.threads[i].held
  }

  lemma HeldWellFormed(s: State, s': State)
    requires SameButHeld(s, s') && forall i :: 0 <= i < |s.threads| ==> WellFormed(s.mem, s.threads[i])
    ensures forall i :: 0 <= i < |s'.threads| ==> WellFormed(s'.mem, s'.threads[i])
  {
    forall i | 0 <= i < |s'.threads| ensures WellFormed(s'.mem, s'.threads[i]) {
      assert WellFormed(s.mem, s.threads[i]);
    }
  }

  lemma HeldGuards(s: State, s': State)
    requires SameButHeld(s, s') && Published(s) && GuardedAlive(s)
    ensures Published(s') && GuardedAlive(s')
  {
    forall i | 0 <= i < |s'.threads| ensures Posted(s'.mem.mutators, s'.threads[i]) {
      assert Posted(s.mem.mutators, s.threads[i]);
    }
  }

  lemma HeldScans(s: State, s': State)
    requires SameButHeld(s, s') && Registry(s) && ScansSound(s)
    ensures Registry(s') && ScansSound(s')
  {
  }

  lemma GiveKeepsInv(s: State, t: nat, u: nat, p: Ptr)
    requires Inv(s) && MayGive(s, t, u, p)
    ensures Inv(Give(s, t, u, p))
  {
    GiveAccounted(s, t, u, p);
    HeldWellFormed(s, Give(s, t, u, p));
    HeldGuards(s, Give(s, t, u, p));
    HeldScans(s, Give(s, t, u, p));
  }

  lemma InitInv(s: State)
    requires Init(s)
    ensures Inv(s)
  {
    forall p: Ptr, l: Ledger ensures p != NULL ==> Occ(s.mem.cells, p) == 0 && Total(l, s.threads, p) == 0
      ensures Total(Garbage, s.threads, p) == 0
    {
      OccMember(s.mem.cells, p);
      NobodyOwns(l, s.threads, p);
      NobodyOwns(Garbage, s.threads, p);
    }
  }

  lemma {:induction false} NobodyOwns(l: Ledger, threads: seq<Thread>, p: Ptr)
    requires forall t :: 0 <= t < |threads| ==> threads[t] == Thread(Ready, [], multiset{}, 0, [], NULL, false)
    ensures Total(l, threads, p) == 0
  {
    if threads != [] {
      NobodyOwns(l, threads[1..], p);
    }
  }

  lemma NextKeepsInv(s: State, s': State)
    requires Inv(s) && Next(s, s')
    ensures Inv(s')
  {
    if t: nat, a :| t < |s.threads| && Enabled(s.mem, s.threads[t], a) && s' == Step(s, t, a) {
      StepKeepsInv(s, t, a);
    } else {
      var t: nat, u: nat, p :| MayGive(s, t, u, p) && s' == Give(s, t, u, p);
      GiveKeepsInv(s, t, u, p);
    }
  }

  lemma RunKeepsInv(run: seq<State>, i: nat)
    requires IsRun(Init, Next, run) && i < |run|
    ensures Inv(run[i])
  {
    forall s | Init(s) ensures Inv(s) { InitInv(s); }
    forall s, s' | Inv(s) && Next(s, s') ensures Inv(s') { NextKeepsInv(s, s'); }
    Invariance(Init, Next, Inv, run);
  }

  // ---------------------------------------------------------------------------------------------
  // Results

  /** The objects a thread may access in its next step: those its `SharedPtr`s point to, the one
      whose counter it is about to read or write, and those linked into its retired lists. */
  ghost predicate MayTouch(th: Thread, p: Ptr) {
    || p in th.held
    || th.guarded == p != NULL
    || (th.pc.Ready? && th.todo != [] && th.todo[0] == Unlink(p))
    || (th.pc.StoreAddRef? && th.pc.target == p)
    || (th.pc.CasAddRef? && th.pc.desired == p)
    || (th.pc.Do? && th.pc.job == RetireJob(p))
    || p in th.retired
    || (th.pc.Collect? && (p in th.pc.kept || (!th.pc.gc.GcNext? && th.pc.gc.obj == p)))
  }

  /** No use after free: whatever threads, cells and interleaving, what a thread accesses has not
      been destroyed. */
  lemma NoUseAfterFree(run: seq<State>, i: nat, t: nat, p: Ptr)
    requires IsRun(Init, Next, run) && i < |run| && t < |run[i].threads|
    requires MayTouch(run[i].threads[t], p)
    ensures p in run[i].mem.heap
  {
    RunKeepsInv(run, i);
    var s, th := run[i], run[i].threads[t];
    assert WellFormed(s.mem, th);
    if p in th.retired || (th.pc.Collect? && p in th.pc.kept) {
      OccMember(th.retired, p);
      if th.pc.Collect? { OccMember(th.pc.kept, p); }
      DutyIsDead(s, t, p);
    } else if th.pc.Collect? && !th.pc.gc.GcNext? && th.pc.gc.obj == p {
      DutyIsDead(s, t, p);
    } else if th.pc.Do? && th.pc.job == RetireJob(p) {
      DutyIsDead(s, t, p);
    } else if th.guarded == p != NULL {
    } else if p in th.held || (th.pc.Ready? && th.todo != [] && th.todo[0] == Unlink(p)) {
      OwnedIsLive(s, t, p);
    } else {
      StoreTargetLive(s, t);
    }
  }

  /** In every reachable state an object's counter is the number of cells holding it plus the number
      of `SharedPtr`s and references in flight; pointers to destroyed objects are held by nobody. */
  lemma CounterExact(run: seq<State>, i: nat, p: Ptr)
    requires IsRun(Init, Next, run) && i < |run| && p != NULL
    ensures Count(run[i].mem.heap, p) == Occ(run[i].mem.cells, p) + Total(References, run[i].threads, p)
  {
    RunKeepsInv(run, i);
    assert Count(run[i].mem.heap, p) == RefCount(run[i], p);
  }

  /** An object is retired exactly once: from the moment its counter is 0 until it is destroyed
      exactly one thread has the duty to destroy it, exactly once. */
  lemma RetiredOnce(run: seq<State>, i: nat, p: Ptr)
    requires IsRun(Init, Next, run) && i < |run|
    ensures Total(Garbage, run[i].threads, p) == One(p in run[i].mem.heap && run[i].mem.heap[p] == 0)
  {
    RunKeepsInv(run, i);
  }

  /** What a `Gc` destroys is there, is unreferenced, and nobody guards it or will destroy it again. */
  lemma DestroyIsSafe(run: seq<State>, i: nat, t: nat, u: nat, p: Ptr)
    requires IsRun(Init, Next, run) && i < |run| && t < |run[i].threads| && u < |run[i].threads|
    requires run[i].threads[t].pc.Collect? && run[i].threads[t].pc.gc == Destroy(p)
    ensures p in run[i].mem.heap && run[i].mem.heap[p] == 0
    ensures p !in run[i].mem.cells && Share(References, run[i].threads[u], p) == 0
    ensures run[i].threads[u].guarded != p
    ensures Share(Garbage, run[i].threads[u], p) == (if u == t then 1 else 0)
  {
    RunKeepsInv(run, i);
    var s := run[i];
    DutyIsDead(s, t, p);
    if p in s.mem.cells || Share(References, s.threads[u], p) > 0 { OwnedIsLive(s, u, p); }
    assert s.threads[u].guarded == p ==> StillAhead(Destroy(p), s.threads[u].mutator);
    TwoShares(Garbage, s.threads, t, u, p);
    ShareInTotal(Garbage, s.threads, t, p);
  }

  lemma {:induction false} TwoShares(l: Ledger, threads: seq<Thread>, t: nat, u: nat, p: Ptr)
    requires t < |threads| && u < |threads|
    ensures t != u ==> Share(l, threads[t], p) + Share(l, threads[u], p) <= Total(l, threads, p)
  {
    if t > 0 && u > 0 {
      TwoShares(l, threads[1..], t - 1, u - 1, p);
    } else if t == 0 && u > 0 {
      ShareInTotal(l, threads[1..], u - 1, p);
    } else if u == 0 && t > 0 {
      ShareInTotal(l, threads[1..], t - 1, p);
    }
  }

  /** A counter that has reached 0 stays 0: `TryAddRef` never revives an object. */
  lemma ZeroIsFinal(run: seq<State>, i: nat, p: Ptr)
    requires IsRun(Init, Next, run) && i + 1 < |run|
    requires p in run[i].mem.heap && run[i].mem.heap[p] == 0
    ensures p in run[i + 1].mem.heap ==> run[i + 1].mem.heap[p] == 0
  {
    RunKeepsInv(run, i);
    var s := run[i];
    if t: nat, a :| t < |s.threads| && Enabled(s.mem, s.threads[t], a) && run[i + 1] == Step(s, t, a) {
      assert WellFormed(s.mem, s.threads[t]);
      StoreTargetLive(s, t);
      if a.Copy? { OwnedIsLive(s, t, a.p); }
      if a.Go? && s.threads[t].pc.Ready? && s.threads[t].todo[0].Unlink? { OwnedIsLive(s, t, s.threads[t].todo[0].p); }
      ExecDead(s.mem, s.threads[t], a, p);
    }
  }

  lemma ExecDead(mem: Memory, th: Thread, a: Act, p: Ptr)
    requires Enabled(mem, th, a) && PcOk(mem, th) && p in mem.heap && mem.heap[p] == 0
    requires a.Copy? ==> a.p != p
    requires th.pc.StoreAddRef? ==> th.pc.target != p
    requires th.pc.CasAddRef? ==> th.pc.desired != p
    requires a.Go? && th.pc.Ready? && th.todo[0].Unlink? ==> th.todo[0].p != p
    ensures p in Exec(mem, th, a).mem.heap ==> Exec(mem, th, a).mem.heap[p] == 0
  {
  }

  /** Once everything has been dropped, what is left in memory is exactly the retired objects, and
      each is in one retired list once; so nothing leaks. */
  lemma NothingLeaks(run: seq<State>, i: nat, p: Ptr)
    requires IsRun(Init, Next, run) && i < |run|
    requires forall c :: 0 <= c < |run[i].mem.cells| ==> run[i].mem.cells[c] == NULL
    requires forall t :: 0 <= t < |run[i].threads| ==> Idle(run[i].threads[t]) && run[i].threads[t].held == multiset{}
    ensures p in run[i].mem.heap <==> exists t :: 0 <= t < |run[i].threads| && p in run[i].threads[t].retired
    ensures forall t, u :: 0 <= t < u < |run[i].threads| && p in run[i].threads[t].retired ==>
      p !in run[i].threads[u].retired
    ensures forall t :: 0 <= t < |run[i].threads| ==> Occ(run[i].threads[t].retired, p) <= 1
  {
    RunKeepsInv(run, i);
    var s := run[i];
    RetiredTotal(s.threads, p);
    OccMember(s.mem.cells, p);
    assert p != NULL ==> Count(s.mem.heap, p) == RefCount(s, p);
    forall t, u | 0 <= t < u < |s.threads| && p in s.threads[t].retired ensures p !in s.threads[u].retired {
      TwoShares(Garbage, s.threads, t, u, p);
      OccMember(s.threads[t].retired, p);
      OccMember(s.threads[u].retired, p);
    }
    forall t | 0 <= t < |s.threads| ensures Occ(s.threads[t].retired, p) <= 1 {
      ShareInTotal(Garbage, s.threads, t, p);
    }
  }

  lemma {:induction false} RetiredTotal(threads: seq<Thread>, p: Ptr)
    requires forall t :: 0 <= t < |threads| ==> Idle(threads[t]) && threads[t].held == multiset{}
    ensures Total(References, threads, p) == 0
    ensures Total(Garbage, threads, p) > 0 <==> exists t :: 0 <= t < |threads| && p in threads[t].retired
  {
    if threads != [] {
      RetiredTotal(threads[1..], p);
      OccMember(threads[0].retired, p);
      if t :| 0 <= t < |threads| && p in threads[t].retired {
        assert t > 0 ==> threads[1..][t - 1] == threads[t];
      }
    }
  }
}
