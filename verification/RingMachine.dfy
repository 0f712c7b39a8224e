/**
 The bounded work-stealing ring `WorkStealingTaskQueue`, as a transition system: one owner that
 pushes, and any number of threads (the owner included) that pop and grab at the same time. Every
 load, store and CAS of the source is one step; weak CASes may fail spuriously.
 */
module RingMachine {
  type Task = nat

  // ---------------------------------------------------------------------------------------------
  // Index arithmetic

  /** Bitwise `and` of two naturals. */
  function And(a: nat, b: nat): nat {
    if a == 0 || b == 0 then 0
    else 2 * And(a / 2, b / 2) + (if a % 2 == 1 && b % 2 == 1 then 1 else 0)
  }

  /** The slot of index `num`: masking when the capacity is a power of two, a remainder otherwise. */
  function Mod(capacity: nat, num: nat): nat
    requires capacity > 0
  {
    if And(capacity, capacity - 1) == 0 then And(num, capacity - 1) else num % capacity
  }

  // ---------------------------------------------------------------------------------------------
  // State

  /** `pushed` and `taken` are history: the tasks pushed and the tasks removed so far, in order. */
  datatype Ring = Ring(buffer: seq<Task>, head: nat, tail: nat, pushed: seq<Task>, taken: seq<Task>)

  datatype Result = Pushed(ok: bool) | Popped(tasks: seq<Task>)

  datatype Pc =
    | Idle(last: Result)
    | PushStart(task: Task)
    | PushHead(task: Task, tail: nat)
    | PushStore(task: Task, tail: nat, head: nat)
    | PushTail(task: Task, tail: nat)
    | PopStart
    | PopTail(head: nat)
    | PopSlot(head: nat, tail: nat)
    | PopCas(head: nat, task: Task)
    | GrabStart(room: nat)
    | GrabTail(room: nat, head: nat)
    | GrabCopy(room: nat, head: nat, tail: nat, got: seq<Task>)
    | GrabCas(room: nat, head: nat, tail: nat, got: seq<Task>)

  datatype State = State(ring: Ring, threads: seq<Pc>)

  datatype Effect = Effect(ring: Ring, pc: Pc)

  datatype Act = TryPush(task: Task) | TryPop | Grab(room: nat) | Go(spurious: bool)

  const OWNER: nat := 0

  predicate Enabled(t: nat, pc: Pc, a: Act) {
    match a
    case TryPush(_) => pc.Idle? && t == OWNER
    case TryPop => pc.Idle?
    case Grab(_) => pc.Idle?
    case Go(_) => !pc.Idle?
  }

  predicate Pushing(pc: Pc) {
    pc.PushStart? || pc.PushHead? || pc.PushStore? || pc.PushTail?
  }

  // ---------------------------------------------------------------------------------------------
  // Steps

  function Slot(r: Ring, i: nat): nat
    requires |r.buffer| > 0
  {
    Mod(|r.buffer|, i)
  }

  function Exec(r: Ring, pc: Pc, a: Act): Effect
    requires |r.buffer| > 0
  {
    match a
    case TryPush(task) => Effect(r, PushStart(task))
    case TryPop => Effect(r, PopStart)
    case Grab(room) => Effect(r, GrabStart(room))
    case Go(spurious) => if Pushing(pc) then ExecPush(r, pc) else ExecTake(r, pc, spurious)
  }

  function ExecPush(r: Ring, pc: Pc): Effect
    requires |r.buffer| > 0
  {
    match pc
    case PushStart(task) => Effect(r, PushHead(task, r.tail))
    case PushHead(task, tail) =>
      if r.head + |r.buffer| <= tail then Effect(r, Idle(Pushed(false)))
      else Effect(r, PushStore(task, tail, r.head))
    case PushStore(task, tail, _) =>
      if Slot(r, tail) >= |r.buffer| then Effect(r, pc)
      else Effect(r.(buffer := r.buffer[Slot(r, tail) := task]), PushTail(task, tail))
    case PushTail(task, tail) =>
      Effect(r.(tail := tail + 1, pushed := r.pushed + [task]), Idle(Pushed(true)))
    case _ => Effect(r, pc)
  }

  function ExecTake(r: Ring, pc: Pc, spurious: bool): Effect
    requires |r.buffer| > 0
  {
    match pc
    case PopStart => Effect(r, PopTail(r.head))
    case PopTail(head) =>
      if head == r.tail then Effect(r, Idle(Popped([]))) else Effect(r, PopSlot(head, r.tail))
    case PopSlot(head, _) =>
      if Slot(r, head) >= |r.buffer| then Effect(r, pc)
      else Effect(r, PopCas(head, r.buffer[Slot(r, head)]))
    case PopCas(head, task) =>
      if r.head == head && !spurious then
        Effect(r.(head := head + 1, taken := r.taken + [task]), Idle(Popped([task])))
      else Effect(r, PopStart)
    case GrabStart(room) => Effect(r, GrabTail(room, r.head))
    case GrabTail(room, head) => Effect(r, GrabCopy(room, head, r.tail, []))
    case GrabCopy(room, head, tail, got) =>
      if head + |got| < tail && |got| < room then
        if Slot(r, head + |got|) >= |r.buffer| then Effect(r, pc)
        else Effect(r, GrabCopy(room, head, tail, got + [r.buffer[Slot(r, head + |got|)]]))
      else Effect(r, GrabCas(room, head, tail, got))
    case GrabCas(room, head, _, got) =>
      if r.head == head && !spurious then
        Effect(r.(head := head + |got|, taken := r.taken + got), Idle(Popped(got)))
      else Effect(r, GrabStart(room))
    case _ => Effect(r, pc)
  }

  ghost predicate Init(s: State) {
    && |s.ring.buffer| > 0
    && s.ring == Ring(s.ring.buffer, 0, 0, [], [])
    && forall t :: 0 <= t < |s.threads| ==> s.threads[t].Idle?
  }

  function Step(s: State, t: nat, a: Act): State
    requires t < |s.threads| && |s.ring.buffer| > 0
  {
    var e := Exec(s.ring, s.threads[t], a);
    State(e.ring, s.threads[t := e.pc])
  }

  ghost predicate Next(s: State, s': State) {
    exists t: nat, a ::
      t < |s.threads| && |s.ring.buffer| > 0 && Enabled(t, s.threads[t], a) && s' == Step(s, t, a)
  }
}
