/**
 Hazard-pointer reclamation under `AtomicSharedPtr`, as a transition system.

 Any number of threads run `MakeShared`, copy, reset and hand over `SharedPtr`s and call `Load`,
 `Store` and `CompareExchangeWeak` on any number of cells. Every atomic load, store, exchange,
 read-modify-write or CAS of the source is one step; weak CASes may fail spuriously. Pointers are
 addresses, so an address may be reused once the object that lived there has been destroyed.
 */
module HazardMachine {
  type Ptr = nat
  const NULL: Ptr := 0
  const SLOTS_PER_MUTATOR: nat := 2

  /** What a thread wanted a mutator for. */
  datatype Job =
    | LoadJob(cell: nat)
    | CasJob(cell: nat, expected: Ptr, desired: Ptr)
    | RetireJob(obj: Ptr)

  /** Where a thread is inside a job. */
  datatype Stage =
    | GetMutator
    | RegisterLoad
    | RegisterCas(head: nat)
    | ProtectLoad
    | ProtectSet(p: Ptr)
    | ProtectCheck(p: Ptr)
    | TryLoad(p: Ptr)
    | TryCas(p: Ptr, seen: int)
    | CellCas
    | NextRound

  /** Where a thread is inside `Mutator::Gc`. */
  datatype GcStage =
    | GcNext
    | ScanHead(obj: Ptr)
    | ScanSlot(obj: Ptr, head: nat, cur: nat, k: nat)
    | ScanRecheck(obj: Ptr, head: nat)
    | Destroy(obj: Ptr)

  datatype Pc =
    | Ready
    | StoreAddRef(cell: nat, target: Ptr)
    | Exchange(cell: nat, target: Ptr)
    | CasAddRef(cell: nat, expected: Ptr, desired: Ptr)
    | Do(job: Job, stage: Stage)
    | Collect(kept: seq<Ptr>, gc: GcStage)

  /** What is still to run once the current call returns: reference drops and slot resets. */
  datatype Todo = Unlink(p: Ptr) | ResetSlot

  /** `mutator` is 1-based; 0 means that the thread has not registered yet. The last two are history:
      `guarded` is the pointer that has passed the re-load of `Protect` and is still in the slot, and
      `answer` is what the last `CompareExchangeWeak` returned. */
  datatype Thread = Thread(
    pc: Pc, todo: seq<Todo>, held: multiset<Ptr>, mutator: nat, retired: seq<Ptr>, guarded: Ptr, answer: bool)

  /** A registered mutator. `next` is the 1-based number of the one registered before it, 0 for none. */
  datatype Mutator = Mutator(slots: seq<Ptr>, next: nat)

  /** `heap` maps every `SharedState` that is not destroyed to its counter; the collector's `head_`
      is the number of mutators registered so far. */
  datatype Memory = Memory(heap: map<Ptr, int>, cells: seq<Ptr>, mutators: seq<Mutator>)

  datatype State = State(mem: Memory, threads: seq<Thread>)

  /** The result of one step of one thread. */
  datatype Effect = Effect(mem: Memory, th: Thread)

  datatype Act =
    | MakeShared(p: Ptr)
    | Copy(p: Ptr)
    | Reset(p: Ptr)
    | Load(cell: nat)
    | Store(cell: nat, target: Ptr)
    | CompareExchange(cell: nat, expected: Ptr, desired: Ptr)
    | Go(spurious: bool)

  // ---------------------------------------------------------------------------------------------
  // Steps

  function Drop(p: Ptr): seq<Todo> {
    if p == NULL then [] else [Unlink(p)]
  }

  function Own(p: Ptr): multiset<Ptr> {
    if p == NULL then multiset{} else multiset{p}
  }

  function Count(heap: map<Ptr, int>, p: Ptr): int {
    if p in heap then heap[p] else 0
  }

  function Add(heap: map<Ptr, int>, p: Ptr, delta: int): map<Ptr, int> {
    if p in heap then heap[p := heap[p] + delta] else heap
  }

  function SetSlot(ms: seq<Mutator>, m: nat, p: Ptr): seq<Mutator> {
    if 1 <= m <= |ms| && |ms[m - 1].slots| > 0 then
      ms[m - 1 := ms[m - 1].(slots := ms[m - 1].slots[0 := p])]
    else ms
  }

  predicate Idle(th: Thread) {
    th.pc == Ready && th.todo == []
  }

  /** A call that a thread may make between two calls; `Go` continues the call it is in. */
  predicate Enabled(mem: Memory, th: Thread, a: Act) {
    match a
    case MakeShared(p) => Idle(th) && p != NULL && p !in mem.heap
    case Copy(p) => Idle(th) && p in th.held
    case Reset(p) => Idle(th) && p in th.held
    case Load(c) => Idle(th) && c < |mem.cells|
    case Store(c, n) => Idle(th) && c < |mem.cells| && Own(n) <= th.held
    case CompareExchange(c, e, d) => Idle(th) && c < |mem.cells| && Own(e) + Own(d) <= th.held
    case Go(_) => !Idle(th)
  }

  function Exec(mem: Memory, th: Thread, a: Act): Effect
    requires Enabled(mem, th, a)
  {
    match a
    case Go(spurious) =>
      (match th.pc
       case Ready => ExecTodo(mem, th)
       case Do(job, stage) => ExecJob(mem, th, job, stage, spurious)
       case Collect(kept, gc) => ExecGc(mem, th, kept, gc)
       case _ => ExecStore(mem, th))
    case _ => Call(mem, th, a)
  }

  /** The entry of `MakeShared`, the `SharedPtr` operations and the `AtomicSharedPtr` operations. */
  function Call(mem: Memory, th: Thread, a: Act): Effect
    requires Enabled(mem, th, a) && !a.Go?
  {
    match a
    case MakeShared(p) =>
      Effect(mem.(heap := mem.heap[p := 1]), th.(held := th.held + multiset{p}))
    case Copy(p) =>
      Effect(mem.(heap := Add(mem.heap, p, 1)), th.(held := th.held + multiset{p}))
    case Reset(p) =>
      Effect(mem, th.(held := th.held - multiset{p}, todo := Drop(p)))
    case Load(c) =>
      Effect(mem, th.(pc := Do(LoadJob(c), GetMutator)))
    case Store(c, n) =>
      Effect(mem, th.(held := th.held - Own(n), todo := Drop(n),
                      pc := if n == NULL then Exchange(c, n) else StoreAddRef(c, n)))
    case CompareExchange(c, e, d) =>
      Effect(mem, th.(held := th.held - (Own(e) + Own(d)), todo := Drop(d),
                      pc := if d == NULL then Do(CasJob(c, e, d), GetMutator) else CasAddRef(c, e, d)))
  }

  /** `SharedState::Unlink` (the decrement that reaches 0 retires) and `PtrRecord::Reset`. */
  function ExecTodo(mem: Memory, th: Thread): Effect
    requires th.todo != []
  {
    match th.todo[0]
    case Unlink(p) =>
      var pc := if Count(mem.heap, p) == 1 then Do(RetireJob(p), GetMutator) else Ready;
      Effect(mem.(heap := Add(mem.heap, p, -1)), th.(pc := pc, todo := th.todo[1..]))
    case ResetSlot =>
      Effect(mem.(mutators := SetSlot(mem.mutators, th.mutator, NULL)), th.(todo := th.todo[1..], guarded := NULL))
  }

  /** `Store` after its entry, and the `AddRef` with which `CompareExchangeWeak` starts. */
  function ExecStore(mem: Memory, th: Thread): Effect {
    match th.pc
    case StoreAddRef(c, n) =>
      Effect(mem.(heap := Add(mem.heap, n, 1)), th.(pc := Exchange(c, n)))
    case Exchange(c, n) =>
      if c >= |mem.cells| then Effect(mem, th)
      else Effect(mem.(cells := mem.cells[c := n]), th.(pc := Ready, todo := Drop(mem.cells[c]) + th.todo))
    case CasAddRef(c, e, d) =>
      Effect(mem.(heap := Add(mem.heap, d, 1)), th.(pc := Do(CasJob(c, e, d), GetMutator)))
    case _ => Effect(mem, th)
  }

  /** `GetMutator`, `Protect`, `TryAddRef` and the bodies of `Load` and `CompareExchangeWeak`. */
  function ExecJob(mem: Memory, th: Thread, job: Job, stage: Stage, spurious: bool): Effect {
    match stage
    case GetMutator =>
      if th.mutator == 0 then Effect(mem, th.(pc := Do(job, RegisterLoad)))
      else if job.RetireJob? then Effect(mem, th.(retired := th.retired + [job.obj], pc := Collect([], GcNext)))
      else Effect(mem, th.(pc := Do(job, ProtectLoad)))
    case RegisterLoad =>
      Effect(mem, th.(pc := Do(job, RegisterCas(|mem.mutators|))))
    case RegisterCas(head) =>
      if |mem.mutators| == head && !spurious then
        Effect(mem.(mutators := mem.mutators + [Mutator([NULL, NULL], head)]),
               th.(mutator := head + 1, pc := Do(job, GetMutator)))
      else Effect(mem, th.(pc := Do(job, RegisterLoad)))
    case ProtectLoad =>
      if !HasCell(mem, job) then Effect(mem, th)
      else Effect(mem, th.(pc := Do(job, ProtectSet(mem.cells[job.cell]))))
    case ProtectSet(p) =>
      Effect(mem.(mutators := SetSlot(mem.mutators, th.mutator, p)), th.(pc := Do(job, ProtectCheck(p))))
    case ProtectCheck(p) =>
      if !HasCell(mem, job) then Effect(mem, th)
      else Effect(mem, Checked(th, job, p, mem.cells[job.cell] == p))
    case TryLoad(p) =>
      Effect(mem, th.(pc := Do(job, Retry(p, Count(mem.heap, p)))))
    case TryCas(p, seen) =>
      if Count(mem.heap, p) == seen && !spurious then
        Effect(mem.(heap := Add(mem.heap, p, 1)), Acquired(th, job, p))
      else Effect(mem, th.(pc := Do(job, Retry(p, Count(mem.heap, p)))))
    case CellCas =>
      if !HasCell(mem, job) || !job.CasJob? then Effect(mem, th)
      else if mem.cells[job.cell] == job.expected && !spurious then
        Effect(mem.(cells := mem.cells[job.cell := job.desired]), Swapped(th, job))
      else Effect(mem, th.(pc := Do(job, NextRound)))
    case NextRound =>
      Effect(mem.(mutators := SetSlot(mem.mutators, th.mutator, NULL)),
             th.(pc := Do(job, ProtectLoad), guarded := NULL))
  }

  predicate HasCell(mem: Memory, job: Job) {
    !job.RetireJob? && job.cell < |mem.cells|
  }

  /** The loop of `TryAddRef` gives up on a counter of 0. */
  function Retry(p: Ptr, count: int): Stage {
    if count == 0 then NextRound else TryCas(p, count)
  }

  /** After the re-load in `Protect`: `same` tells whether the cell still holds `p`. */
  function Checked(th: Thread, job: Job, p: Ptr, same: bool): Thread {
    if !same then th.(pc := Do(job, ProtectLoad))
    else if job.CasJob? && job.expected == p then th.(pc := Do(job, CellCas), guarded := p)
    else if p == NULL then th.(pc := Ready, todo := Leave(job) + th.todo, answer := false)
    else th.(pc := Do(job, TryLoad(p)), guarded := p)
  }

  /** After a successful `TryAddRef`: the new reference goes to the result or to `expected`. */
  function Acquired(th: Thread, job: Job, p: Ptr): Thread {
    th.(pc := Ready, held := th.held + Own(p), todo := Leave(job) + th.todo, answer := false)
  }

  /** After a successful CAS on the cell: `expected` stays, the cell's old reference is dropped. */
  function Swapped(th: Thread, job: Job): Thread
    requires job.CasJob?
  {
    th.(pc := Ready, held := th.held + Own(job.expected), todo := Drop(job.expected) + ([ResetSlot] + th.todo),
        answer := true)
  }

  /** What `Load` and a failing `CompareExchangeWeak` still do before they return. */
  function Leave(job: Job): seq<Todo> {
    match job
    case CasJob(_, e, d) => Drop(d) + Drop(e) + [ResetSlot]
    case _ => [ResetSlot]
  }

  /** `Mutator::Gc` with `Collector::IsProtected` unfolded into single loads. */
  function ExecGc(mem: Memory, th: Thread, kept: seq<Ptr>, gc: GcStage): Effect {
    match gc
    case GcNext =>
      if th.retired == [] then Effect(mem, th.(retired := kept, pc := Ready))
      else Effect(mem, th.(retired := th.retired[1..], pc := Collect(kept, ScanHead(th.retired[0]))))
    case ScanHead(obj) =>
      Effect(mem, th.(pc := Collect(kept, Cursor(obj, |mem.mutators|, |mem.mutators|))))
    case ScanSlot(obj, head, cur, k) =>
      if !(1 <= cur <= |mem.mutators|) || k >= |mem.mutators[cur - 1].slots| then Effect(mem, th)
      else if mem.mutators[cur - 1].slots[k] == obj then Effect(mem, th.(pc := Collect(kept + [obj], GcNext)))
      else if k + 1 < SLOTS_PER_MUTATOR then Effect(mem, th.(pc := Collect(kept, ScanSlot(obj, head, cur, k + 1))))
      else Effect(mem, th.(pc := Collect(kept, Cursor(obj, head, mem.mutators[cur - 1].next))))
    case ScanRecheck(obj, head) =>
      Effect(mem, th.(pc := Collect(kept, if |mem.mutators| == head then Destroy(obj) else ScanHead(obj))))
    case Destroy(obj) =>
      Effect(mem.(heap := mem.heap - {obj}), th.(pc := Collect(kept, GcNext)))
  }

  function Cursor(obj: Ptr, head: nat, cur: nat): GcStage {
    if cur == 0 then ScanRecheck(obj, head) else ScanSlot(obj, head, cur, 0)
  }

  ghost predicate Init(s: State) {
    && s.mem.heap == map[]
    && (forall c :: 0 <= c < |s.mem.cells| ==> s.mem.cells[c] == NULL)
    && s.mem.mutators == []
    && forall t :: 0 <= t < |s.threads| ==> s.threads[t] == Thread(Ready, [], multiset{}, 0, [], NULL, false)
  }

  function Step(s: State, t: nat, a: Act): State
    requires t < |s.threads| && Enabled(s.mem, s.threads[t], a)
  {
    var e := Exec(s.mem, s.threads[t], a);
    State(e.mem, s.threads[t := e.th])
  }

  /** Two idle threads hand over a `SharedPtr` by moving it. */
  predicate MayGive(s: State, t: nat, u: nat, p: Ptr) {
    && t < |s.threads| && u < |s.threads| && t != u
    && Idle(s.threads[t]) && p in s.threads[t].held
  }

  function Give(s: State, t: nat, u: nat, p: Ptr): State
    requires MayGive(s, t, u, p)
  {
    var threads := s.threads[t := s.threads[t].(held := s.threads[t].held - multiset{p})];
    s.(threads := threads[u := threads[u].(held := threads[u].held + multiset{p})])
  }

  ghost predicate Next(s: State, s': State) {
    || (exists t: nat, a :: t < |s.threads| && Enabled(s.mem, s.threads[t], a) && s' == Step(s, t, a))
    || (exists t: nat, u: nat, p :: MayGive(s, t, u, p) && s' == Give(s, t, u, p))
  }
}
