/**
 The sandbox runtime: a virtual clock, timers in the leftist heap, and a manually driven task queue.
 */
module Sandbox {
  import opened Common
  import opened LeftistHeap

  class Clock {
    var now: int

    constructor ()
      ensures now == 0
    {
      now := 0;
    }

    method AdvanceBy(delta: int)
      modifies this
      ensures now == old(now) + delta
    {
      now := now + delta;
    }

    /** `ok` is the outcome of the assertion; when it fails the program ends and nothing changes. */
    method AdvanceTo(future: int) returns (ok: bool)
      modifies this
      ensures ok == (old(now) <= future) && now == if ok then future else old(now)
    {
      ok := future >= now;
      if ok {
        now := future;
      }
    }
  }

  ghost predicate Sorted(s: seq<int>) { forall i, j :: 0 <= i < j < |s| ==> s[i] <= s[j] }

  ghost predicate AllUpTo(s: seq<int>, high: int) { forall i :: 0 <= i < |s| ==> s[i] <= high }

  ghost function Deadlines(ready: seq<TimerBase>): (d: seq<int>)
    reads set t | t in ready
    ensures |d| == |ready|
  {
    seq(|ready|, i requires 0 <= i < |ready| reads (set t | t in ready) => ready[i].deadline)
  }

  ghost function Elements(ready: seq<TimerBase>): set<TimerBase> { set t | t in ready }

  /** Adding a timer that is due no earlier than the others. */
  lemma ReadyAppend(ready: seq<TimerBase>, t: TimerBase)
    requires NoDuplicates(ready) && Sorted(Deadlines(ready)) && t !in ready
    requires forall u :: u in ready ==> u.deadline <= t.deadline
    ensures NoDuplicates(ready + [t]) && Sorted(Deadlines(ready + [t]))
    ensures Elements(ready + [t]) == Elements(ready) + {t}
  {
    assert Deadlines(ready + [t]) == Deadlines(ready) + [t.deadline];
    assert forall u :: u in ready + [t] <==> u in ready || u == t;
  }

  /** Timers due between `was` and `now` may be handed over after all that was due at `was`. */
  lemma HandOver(handed: seq<int>, ready: seq<TimerBase>, was: int, now: int)
    requires Sorted(handed) && AllUpTo(handed, was) && Sorted(Deadlines(ready))
    requires was <= now && forall t :: t in ready ==> was <= t.deadline <= now
    ensures Sorted(handed + Deadlines(ready)) && AllUpTo(handed + Deadlines(ready), now)
  {
    var d := Deadlines(ready);
    forall i | 0 <= i < |d| ensures was <= d[i] <= now { assert ready[i] in ready; }
  }

  ghost predicate IsNextDeadline(timers: set<TimerBase>, at: int)
    reads timers`deadline
  {
    (exists t :: t in timers && t.deadline == at) && forall t :: t in timers ==> at <= t.deadline
  }

  lemma DueElements(ready: seq<TimerBase>, timers: set<TimerBase>, now: int)
    requires Elements(ready) == set t | t in timers && t.deadline <= now
    ensures forall t :: t in ready <==> t in timers && t.deadline <= now
  {
    assert forall t :: t in ready <==> t in Elements(ready);
  }

  class TimerQueue {
    const clock: Clock
    const tasks: IntrusiveTimerLeftistHeap

    ghost predicate Valid()
      reads tasks, tasks.timers
    {
      tasks.Valid()
    }

    /** The timers that are due now. */
    ghost function Due(): set<TimerBase>
      reads clock, tasks`timers, tasks.timers`deadline
    {
      set t | t in tasks.timers && t.deadline <= clock.now
    }

    /** No timer is overdue. */
    ghost predicate NoneOverdue()
      reads clock, tasks`timers, tasks.timers`deadline
    {
      forall t :: t in tasks.timers ==> clock.now <= t.deadline
    }

    constructor ()
      ensures Valid() && tasks.timers == {} && clock.now == 0 && fresh(clock) && fresh(tasks)
    {
      clock := new Clock();
      tasks := new IntrusiveTimerLeftistHeap();
    }

    /** Setting a timer leaves none overdue exactly if none was and the delay is not negative. */
    method Set(delay: int, timer: TimerBase)
      requires Valid() && timer !in tasks.timers
      modifies timer, tasks, tasks.timers`prev, tasks.timers`next, tasks.timers`depth
      ensures Valid() && tasks.timers == old(tasks.timers) + {timer} && timer.deadline == clock.now + delay
      ensures NoneOverdue() <==> old(NoneOverdue()) && delay >= 0
    {
      timer.deadline := delay + clock.now;
      tasks.Push(timer);
    }

    method AdvanceClockBy(delta: int)
      modifies clock
      ensures clock.now == old(clock.now) + delta
    {
      clock.AdvanceBy(delta);
    }

    /** Moves the clock to the earliest deadline. The assertion on the way holds exactly if no timer
        is overdue; with no timers the clock stays. */
    method AdvanceClockToNextDeadline() returns (ok: bool)
      requires Valid()
      modifies clock
      ensures ok <==> old(NoneOverdue())
      ensures tasks.timers == {} || !ok ==> clock.now == old(clock.now)
      ensures ok && tasks.timers != {} ==>
                old(clock.now) <= clock.now && IsNextDeadline(tasks.timers, clock.now) && NoneOverdue()
    {
      tasks.EarliestTop();
      ok := true;
      if !tasks.IsEmpty() {
        ok := clock.AdvanceTo(tasks.top.deadline);
      }
    }

    /** Takes out exactly the due timers, each once, in the order of their deadlines. */
    method PopReadyTimers() returns (ready: seq<TimerBase>)
      requires Valid()
      modifies tasks, tasks.timers`prev, tasks.timers`next, tasks.timers`depth
      ensures Valid() && tasks.timers == old(tasks.timers) - old(Due())
      ensures NoDuplicates(ready) && Elements(ready) == old(Due())
      ensures Sorted(Deadlines(ready))
      ensures forall t :: t in ready ==> t.prev == null && t.next == null
    {
      ready := [];
      ghost var all := tasks.timers;
      while !tasks.IsEmpty()
        invariant Valid() && Popped(ready, all)
        decreases tasks.timers
      {
        tasks.EarliestTop();
        if tasks.top.deadline > clock.now {
          break;
        }
        ready := PopOnto(ready, all);
      }
      assert old(Due()) == Elements(ready) by {
        tasks.EarliestTop();
      }
    }

    /** `ready` is what has been taken out of `all` so far, all of it due and no later than what is left. */
    ghost predicate Popped(ready: seq<TimerBase>, all: set<TimerBase>)
      reads clock, tasks, tasks.timers, set t | t in ready
    {
      && tasks.timers <= all && Elements(ready) == all - tasks.timers
      && NoDuplicates(ready) && Sorted(Deadlines(ready))
      && (forall t :: t in ready ==> t.deadline <= clock.now && t.prev == null && t.next == null)
      && (forall t, u :: t in ready && u in tasks.timers ==> t.deadline <= u.deadline)
    }

    /** One round of the loop. */
    method PopOnto(ready: seq<TimerBase>, ghost all: set<TimerBase>) returns (more: seq<TimerBase>)
      requires Valid() && Popped(ready, all) && !tasks.IsEmpty() && tasks.top.deadline <= clock.now
      modifies tasks, tasks.timers`prev, tasks.timers`next, tasks.timers`depth
      ensures Valid() && Popped(more, all) && tasks.timers < old(tasks.timers)
    {
      var timer := tasks.Pop();
      assert timer !in Elements(ready);
      ReadyAppend(ready, timer);
      more := ready + [timer];
    }
  }

  /** What a running task may do to the runtime. */
  datatype Op = Submit(task: nat) | Set(delay: int, task: nat)

  /** What the owner of the runtime may do. */
  datatype Command = Perform(op: Op) | RunAtMost(limit: nat) | AdvanceBy(delta: int) | AdvanceToNext

  predicate Forward(op: Op) { op.Set? ==> op.delay >= 0 }

  function SubmitsOf(ops: seq<Op>): seq<nat> {
    if ops == [] then [] else
    SubmitsOf(ops[..|ops| - 1]) + (if ops[|ops| - 1].Submit? then [ops[|ops| - 1].task] else [])
  }

  /** The timers that a body sets, in order. */
  function SetsOf(ops: seq<Op>): (sets: seq<Op>)
    ensures forall i :: 0 <= i < |sets| ==> sets[i].Set?
  {
    if ops == [] then [] else
    SetsOf(ops[..|ops| - 1]) + (if ops[|ops| - 1].Set? then [ops[|ops| - 1]] else [])
  }

  lemma SetsOfOne(op: Op)
    ensures SetsOf([op]) == if op.Set? then [op] else []
    ensures SubmitsOf([op]) == if op.Submit? then [op.task] else []
  {
    assert [op][..0] == [];
  }

  /** What the tasks `tasks` submit when they run one after the other, and the timers that they set. */
  function SubmitsOfAll(tasks: seq<nat>, code: nat -> seq<Op>): seq<nat> {
    if tasks == [] then [] else SubmitsOfAll(tasks[..|tasks| - 1], code) + SubmitsOf(code(tasks[|tasks| - 1]))
  }

  function SetsOfAll(tasks: seq<nat>, code: nat -> seq<Op>): (sets: seq<Op>)
    ensures forall i :: 0 <= i < |sets| ==> sets[i].Set?
  {
    if tasks == [] then [] else SetsOfAll(tasks[..|tasks| - 1], code) + SetsOf(code(tasks[|tasks| - 1]))
  }

  /** One timer for each `Set`, with its task and its deadline. */
  ghost predicate MadeBy(made: seq<TimerBase>, sets: seq<Op>, now: int)
    requires forall i :: 0 <= i < |sets| ==> sets[i].Set?
    reads (set t | t in made)`deadline
  {
    && |made| == |sets| && NoDuplicates(made)
    && forall i :: 0 <= i < |made| ==> made[i].task == sets[i].task && made[i].deadline == now + sets[i].delay
  }

  predicate ForwardCommand(c: Command) {
    (c.Perform? ==> Forward(c.op)) && (c.AdvanceBy? ==> c.delta >= 0)
  }

  function TasksOf(ready: seq<TimerBase>): seq<nat> {
    seq(|ready|, i requires 0 <= i < |ready| => ready[i].task)
  }

  lemma OneOpMore(ops: seq<Op>, made: seq<TimerBase>, more: seq<TimerBase>, now: int)
    requires ops != [] && Elements(made) !! Elements(more)
    requires MadeBy(made, SetsOf(ops[..|ops| - 1]), now) && MadeBy(more, SetsOf([ops[|ops| - 1]]), now)
    ensures SubmitsOf(ops) == SubmitsOf(ops[..|ops| - 1]) + SubmitsOf([ops[|ops| - 1]])
    ensures MadeBy(made + more, SetsOf(ops), now) && Elements(made + more) == Elements(made) + Elements(more)
  {
    SetsOfOne(ops[|ops| - 1]);
    MadeMore(made, SetsOf(ops[..|ops| - 1]), more, SetsOf([ops[|ops| - 1]]), now);
  }

  /** All that can be seen of a runtime. */
  datatype Snapshot = Snapshot(
    now: int, queue: seq<nat>, submitted: seq<nat>, ran: seq<nat>, handed: seq<int>, pending: map<TimerBase, int>)

  ghost function DeadlinesIn(pending: map<TimerBase, int>, ready: seq<TimerBase>): seq<int>
    requires forall t :: t in ready ==> t in pending
  {
    seq(|ready|, i requires 0 <= i < |ready| => pending[ready[i]])
  }

  /** `ready` are exactly the timers due at `now`, each once, in the order of their deadlines. */
  ghost predicate Fires(ready: seq<TimerBase>, pending: map<TimerBase, int>, now: int) {
    && NoDuplicates(ready) && (forall t :: t in ready ==> t in pending && pending[t] <= now)
    && (forall t :: t in pending && pending[t] <= now ==> t in ready)
    && Sorted(DeadlinesIn(pending, ready))
  }

  /** What has entered the queue, and the timers that have been set, where the tasks `done` have run. */
  function Entered(c: Command, code: nat -> seq<Op>, done: seq<nat>, ready: seq<TimerBase>): seq<nat> {
    match c
    case Perform(op) => SubmitsOf([op])
    case RunAtMost(_) => SubmitsOfAll(done, code)
    case _ => TasksOf(ready)
  }

  function SetBy(c: Command, code: nat -> seq<Op>, done: seq<nat>): (sets: seq<Op>)
    ensures forall i :: 0 <= i < |sets| ==> sets[i].Set?
  {
    match c
    case Perform(op) => SetsOf([op])
    case RunAtMost(_) => SetsOfAll(done, code)
    case _ => []
  }

  /** The timers `made` are new, one for each `Set`, with its task and its deadline; the timers `ready` are gone,
      and all others are as they were. */
  ghost predicate TimersMoved(
    pending: map<TimerBase, int>, pending': map<TimerBase, int>, ready: seq<TimerBase>, made: seq<TimerBase>,
    sets: seq<Op>, now: int)
    requires forall i :: 0 <= i < |sets| ==> sets[i].Set?
  {
    && pending'.Keys == pending.Keys - Elements(ready) + Elements(made)
    && (forall t :: t in pending && t in pending' ==> pending'[t] == pending[t])
    && |made| == |sets| && NoDuplicates(made)
    && forall i :: 0 <= i < |made| ==>
      && made[i] !in pending && made[i] in pending'
      && made[i].task == sets[i].task && pending'[made[i]] == now + sets[i].delay
  }

  /** `at` is the earliest deadline; with no timers the clock stays. */
  ghost predicate IsNextAfter(pending: map<TimerBase, int>, now: int, at: int) {
    if pending.Keys == {} then at == now
    else (exists t :: t in pending && pending[t] == at) && forall t :: t in pending ==> at <= pending[t]
  }

  /** What a command does to the clock, how many tasks it runs, and which timers it hands over. */
  ghost predicate Moves(c: Command, s: Snapshot, s': Snapshot, done: seq<nat>, ready: seq<TimerBase>) {
    match c
    case Perform(_) => s'.now == s.now && done == [] && ready == []
    case RunAtMost(limit) =>
      s'.now == s.now && |done| <= limit && (|done| < limit ==> s'.queue == []) && ready == []
    case AdvanceBy(delta) => s'.now == s.now + delta && done == [] && Fires(ready, s.pending, s'.now)
    case AdvanceToNext =>
      done == [] && Fires(ready, s.pending, s'.now) && IsNextAfter(s.pending, s.now, s'.now)
  }

  /** The exact effect of a command. */
  ghost predicate Performed(
    c: Command, code: nat -> seq<Op>, s: Snapshot, s': Snapshot, ready: seq<TimerBase>, made: seq<TimerBase>)
  {
    && s.ran <= s'.ran && s'.ran + s'.queue == s'.submitted
    && (forall t :: t in ready ==> t in s.pending)
    && s'.handed == s.handed + DeadlinesIn(s.pending, ready)
    && var done := s'.ran[|s.ran|..];
       && s'.submitted == s.submitted + Entered(c, code, done, ready)
       && TimersMoved(s.pending, s'.pending, ready, made, SetBy(c, code, done), s.now)
       && Moves(c, s, s', done, ready)
  }

  /** What has been handed over was in order, and no timer is overdue. */
  ghost predicate InTime(s: Snapshot) {
    && Sorted(s.handed) && AllUpTo(s.handed, s.now)
    && forall t :: t in s.pending ==> s.now <= s.pending[t]
  }

  lemma {:induction false} SetsForward(ops: seq<Op>)
    requires forall i :: 0 <= i < |ops| ==> Forward(ops[i])
    ensures forall i :: 0 <= i < |SetsOf(ops)| ==> SetsOf(ops)[i].delay >= 0
  {
    if ops != [] {
      assert Forward(ops[|ops| - 1]);
      SetsForward(ops[..|ops| - 1]);
    }
  }

  lemma {:induction false} AllSetsForward(tasks: seq<nat>, code: nat -> seq<Op>)
    requires forall task, i :: 0 <= i < |code(task)| ==> Forward(code(task)[i])
    ensures forall i :: 0 <= i < |SetsOfAll(tasks, code)| ==> SetsOfAll(tasks, code)[i].delay >= 0
  {
    if tasks != [] {
      AllSetsForward(tasks[..|tasks| - 1], code);
      SetsForward(code(tasks[|tasks| - 1]));
    }
  }

  lemma SetByForward(c: Command, code: nat -> seq<Op>, done: seq<nat>)
    requires ForwardCommand(c) && forall task, i :: 0 <= i < |code(task)| ==> Forward(code(task)[i])
    ensures forall i :: 0 <= i < |SetBy(c, code, done)| ==> SetBy(c, code, done)[i].delay >= 0
  {
    if c.Perform? { SetsForward([c.op]); }
    if c.RunAtMost? { AllSetsForward(done, code); }
  }

  /** A command with no negative delay or delta keeps the timers in order. */
  lemma StaysInTime(
    c: Command, code: nat -> seq<Op>, s: Snapshot, s': Snapshot, ready: seq<TimerBase>, made: seq<TimerBase>)
    requires Performed(c, code, s, s', ready, made) && InTime(s)
    requires ForwardCommand(c) && forall task, i :: 0 <= i < |code(task)| ==> Forward(code(task)[i])
    ensures InTime(s')
  {
    SetByForward(c, code, s'.ran[|s.ran|..]);
    HandedInTime(s, s'.now, ready);
    forall t | t in s'.pending ensures s'.now <= s'.pending[t] {
      if t in s.pending { assert s'.pending[t] == s.pending[t]; }
    }
  }

  lemma HandedInTime(s: Snapshot, now: int, ready: seq<TimerBase>)
    requires InTime(s) && (forall t :: t in ready ==> t in s.pending && s.pending[t] <= now)
    requires s.now <= now && Sorted(DeadlinesIn(s.pending, ready))
    ensures var handed := s.handed + DeadlinesIn(s.pending, ready); Sorted(handed) && AllUpTo(handed, now)
  {
    var d := DeadlinesIn(s.pending, ready);
    forall i | 0 <= i < |d| ensures s.now <= d[i] <= now { assert ready[i] in ready; }
  }

  /** The timers due have been taken out and their tasks put into the queue. */
  ghost predicate Fired(s: Snapshot, s': Snapshot, ready: seq<TimerBase>) {
    && Fires(ready, s.pending, s'.now)
    && s'.ran == s.ran && s'.ran + s'.queue == s'.submitted == s.submitted + TasksOf(ready)
    && s'.handed == s.handed + DeadlinesIn(s.pending, ready) && s'.pending == s.pending - Elements(ready)
  }

  lemma ReadyFires(ready: seq<TimerBase>, pending: map<TimerBase, int>, timers: set<TimerBase>, now: int)
    requires pending == map t | t in timers :: t.deadline
    requires NoDuplicates(ready) && Sorted(Deadlines(ready))
    requires (forall t :: t in ready ==> t in timers && t.deadline <= now)
    requires forall t :: t in timers && t.deadline <= now ==> t in ready
    ensures Fires(ready, pending, now) && DeadlinesIn(pending, ready) == Deadlines(ready)
  {
    assert DeadlinesIn(pending, ready) == Deadlines(ready);
  }

  lemma NextIn(pending: map<TimerBase, int>, timers: set<TimerBase>, at: int)
    requires timers != {} && pending == (map t | t in timers :: t.deadline) && IsNextDeadline(timers, at)
    ensures pending.Keys != {} && forall now :: IsNextAfter(pending, now, at)
  {
    var t :| t in timers && t.deadline == at;
    assert t in pending && pending[t] == at;
  }

  lemma FiredIsPerformed(c: Command, code: nat -> seq<Op>, s: Snapshot, s': Snapshot, ready: seq<TimerBase>)
    requires c.AdvanceBy? || c.AdvanceToNext?
    requires Fired(s, s', ready)
    requires if c.AdvanceBy? then s'.now == s.now + c.delta else IsNextAfter(s.pending, s.now, s'.now)
    ensures Performed(c, code, s, s', ready, [])
  {
    assert s'.ran[|s.ran|..] == [];
  }

  datatype Entry = Entry(before: Snapshot, after: Snapshot, ready: seq<TimerBase>, made: seq<TimerBase>)

  /** The log leads from `s` to `s'`, command by command. */
  ghost predicate Follows(log: seq<Entry>, commands: seq<Command>, code: nat -> seq<Op>, s: Snapshot, s': Snapshot)
    requires |log| == |commands|
  {
    if log == [] then s' == s
    else
      var n := |log| - 1;
      && log[n].after == s'
      && Performed(commands[n], code, log[n].before, s', log[n].ready, log[n].made)
      && Follows(log[..n], commands[..n], code, s, log[n].before)
  }

  lemma MadeNotOverdue(made: seq<TimerBase>, sets: seq<Op>, now: int)
    requires forall i :: 0 <= i < |sets| ==> sets[i].Set? && sets[i].delay >= 0
    requires MadeBy(made, sets, now)
    ensures forall t :: t in Elements(made) ==> now <= t.deadline
  {
  }

  /** Timers for some `Set`s, and new ones for some more. */
  lemma MadeMore(made: seq<TimerBase>, sets: seq<Op>, more: seq<TimerBase>, moreSets: seq<Op>, now: int)
    requires forall i :: 0 <= i < |sets| ==> sets[i].Set?
    requires forall i :: 0 <= i < |moreSets| ==> moreSets[i].Set?
    requires MadeBy(made, sets, now) && MadeBy(more, moreSets, now) && Elements(made) !! Elements(more)
    ensures forall i :: 0 <= i < |sets + moreSets| ==> (sets + moreSets)[i].Set?
    ensures MadeBy(made + more, sets + moreSets, now) && Elements(made + more) == Elements(made) + Elements(more)
  {
    forall i, j | 0 <= i < j < |made + more| ensures (made + more)[i] != (made + more)[j] {
      if i < |made| <= j { assert made[i] in Elements(made) && more[j - |made|] in Elements(more); }
    }
    assert forall t :: t in made + more <==> t in made || t in more;
  }

  /** `code` says what each task does when it runs. `submitted` and `ran` list all tasks that ever
      entered and left the queue, `handed` the deadlines of all timers moved to it. */
  class Runtime {
    const timers: TimerQueue
    const code: nat -> seq<Op>
    var taskQueue: seq<nat>
    ghost var submitted: seq<nat>
    ghost var ran: seq<nat>
    ghost var handed: seq<int>

    ghost function Footprint(): set<object>
      reads this, timers.tasks
    {
      {this, timers.clock, timers.tasks} + timers.tasks.timers
    }

    ghost predicate Valid()
      reads this, timers.tasks, timers.tasks.timers
    {
      timers.Valid() && ran + taskQueue == submitted
    }

    /** The timers handed over so far were in order, and none that is left should have been. */
    ghost predicate Punctual()
      reads this`handed, timers.clock, timers.tasks`timers, timers.tasks.timers`deadline
    {
      && timers.NoneOverdue()
      && Sorted(handed) && AllUpTo(handed, timers.clock.now)
    }

    /** What `Punctual` says, had the clock shown `at`. */
    ghost predicate OrderlyAt(at: int)
      reads this`handed, timers.tasks`timers, timers.tasks.timers`deadline
    {
      && (forall t :: t in timers.tasks.timers ==> at <= t.deadline)
      && Sorted(handed) && AllUpTo(handed, at)
    }

    ghost predicate ForwardCode() {
      forall task, i :: 0 <= i < |code(task)| ==> Forward(code(task)[i])
    }

    constructor (code: nat -> seq<Op>)
      ensures Valid() && Punctual() && handed == [] && submitted == [] && this.code == code
      ensures fresh(Footprint())
    {
      this.code := code;
      timers := new TimerQueue();
      taskQueue, submitted, ran, handed := [], [], [], [];
    }

    method SubmitTask(task: nat)
      requires Valid()
      modifies this`taskQueue, this`submitted
      ensures Valid() && taskQueue == old(taskQueue) + [task] && submitted == old(submitted) + [task]
    {
      taskQueue := taskQueue + [task];
      submitted := submitted + [task];
    }

    /** A submission goes to the back of the queue; a timer is made and set. */
    method PerformOp(op: Op) returns (ghost made: seq<TimerBase>)
      requires Valid()
      modifies this`taskQueue, this`submitted
      modifies timers.tasks, timers.tasks.timers`prev, timers.tasks.timers`next, timers.tasks.timers`depth
      ensures Valid() && fresh(Elements(made))
      ensures submitted == old(submitted) + SubmitsOf([op])
      ensures timers.tasks.timers == old(timers.tasks.timers) + Elements(made)
      ensures MadeBy(made, SetsOf([op]), timers.clock.now)
      ensures Punctual() <==> old(Punctual()) && Forward(op)
    {
      match op
      case Submit(task) =>
        SubmitTask(task);
        made := [];
      case Set(delay, task) =>
        var timer := new TimerBase(task);
        timers.Set(delay, timer);
        made := [timer];
        assert Elements(made) == {timer};
    }

    /** Empties the list of ready timers into the queue, front first. */
    method SubmitAll(ready: seq<TimerBase>) returns (res: nat)
      requires Valid()
      modifies this`taskQueue, this`submitted
      ensures Valid() && res == |ready| && submitted == old(submitted) + TasksOf(ready)
    {
      res := 0;
      var list := ready;
      while list != []
        invariant Valid()
        invariant res <= |ready| && list == ready[res..]
        invariant submitted == old(submitted) + TasksOf(ready[..res])
      {
        res := res + 1;
        assert TasksOf(ready[..res]) == TasksOf(ready[..res - 1]) + [list[0].task];
        SubmitTask(list[0].task);
        list := list[1..];
      }
      assert ready[..res] == ready;
    }

    /** Moves exactly the due timers, in the order of their deadlines, and counts them. If nothing was
        out of order when the clock showed `was`, nothing is now. */
    method MoveReadyToQueue(ghost was: int) returns (res: nat, ready: seq<TimerBase>)
      requires Valid()
      modifies this`taskQueue, this`submitted, this`handed
      modifies timers.tasks, timers.tasks.timers`prev, timers.tasks.timers`next, timers.tasks.timers`depth
      ensures Valid() && timers.tasks.timers == old(timers.tasks.timers) - Elements(ready)
      ensures NoDuplicates(ready) && Sorted(Deadlines(ready)) && res == |ready|
      ensures forall t :: t in ready <==> t in old(timers.tasks.timers) && t.deadline <= timers.clock.now
      ensures submitted == old(submitted) + TasksOf(ready)
      ensures handed == old(handed) + Deadlines(ready)
      ensures old(OrderlyAt(was)) && was <= timers.clock.now ==> Punctual()
    {
      ready := timers.PopReadyTimers();
      assert Elements(ready) == old(timers.Due());
      DueElements(ready, old(timers.tasks.timers), timers.clock.now);
      if old(OrderlyAt(was)) && was <= timers.clock.now { HandOver(handed, ready, was, timers.clock.now); }
      handed := handed + Deadlines(ready);
      res := SubmitAll(ready);
    }

    method AdvanceClockBy(delta: int) returns (res: nat, ready: seq<TimerBase>)
      requires Valid()
      modifies timers.clock, this`taskQueue, this`submitted, this`handed
      modifies timers.tasks, timers.tasks.timers`prev, timers.tasks.timers`next, timers.tasks.timers`depth
      ensures Valid() && timers.clock.now == old(timers.clock.now) + delta && ran == old(ran)
      ensures timers.tasks.timers == old(timers.tasks.timers) - Elements(ready)
      ensures NoDuplicates(ready) && Sorted(Deadlines(ready)) && res == |ready|
      ensures forall t :: t in ready <==> t in old(timers.tasks.timers) && t.deadline <= timers.clock.now
      ensures submitted == old(submitted) + TasksOf(ready)
      ensures handed == old(handed) + Deadlines(ready)
      ensures old(Punctual()) ==> (Punctual() <==> AllUpTo(old(handed), timers.clock.now))
    {
      timers.AdvanceClockBy(delta);
      ghost var was := if delta >= 0 then timers.clock.now - delta else timers.clock.now;
      res, ready := MoveReadyToQueue(was);
      assert forall i :: 0 <= i < |old(handed)| ==> handed[i] == old(handed)[i];
    }

    /** `ok` is the outcome of the clock's assertion: it holds exactly if no timer is overdue. */
    method AdvanceClockToNextDeadline() returns (ok: bool, res: nat, ready: seq<TimerBase>)
      requires Valid()
      modifies timers.clock, this`taskQueue, this`submitted, this`handed
      modifies timers.tasks, timers.tasks.timers`prev, timers.tasks.timers`next, timers.tasks.timers`depth
      ensures Valid() && ran == old(ran)
      ensures ok <==> old(timers.NoneOverdue())
      ensures timers.tasks.timers == old(timers.tasks.timers) - Elements(ready)
      ensures NoDuplicates(ready) && Sorted(Deadlines(ready)) && res == |ready|
      ensures if ok && old(timers.tasks.timers) != {} then IsNextDeadline(old(timers.tasks.timers), timers.clock.now)
              else timers.clock.now == old(timers.clock.now)
      ensures !ok ==> Snap() == old(Snap()) && ready == []
      ensures ok ==> forall t :: t in ready <==> t in old(timers.tasks.timers) && t.deadline <= timers.clock.now
      ensures submitted == old(submitted) + TasksOf(ready)
      ensures handed == old(handed) + Deadlines(ready)
      ensures ok && old(Punctual()) ==> Punctual()
    {
      ok := timers.AdvanceClockToNextDeadline();
      if !ok {
        return false, 0, [];
      }
      res, ready := MoveReadyToQueue(old(timers.clock.now));
    }

    /** Runs the body of one task: it submits what it submits, in order, and sets a new timer for each `Set`. */
    method RunTask(task: nat) returns (ghost made: seq<TimerBase>)
      requires Valid()
      modifies this`taskQueue, this`submitted
      modifies timers.tasks, timers.tasks.timers`prev, timers.tasks.timers`next, timers.tasks.timers`depth
      ensures Valid() && fresh(Elements(made))
      ensures submitted == old(submitted) + SubmitsOf(code(task))
      ensures timers.tasks.timers == old(timers.tasks.timers) + Elements(made)
      ensures MadeBy(made, SetsOf(code(task)), timers.clock.now)
      ensures old(Punctual()) && ForwardCode() ==> Punctual()
    {
      made := PerformAll(code(task));
      if ForwardCode() && old(Punctual()) {
        SetsForward(code(task));
        MadeNotOverdue(made, SetsOf(code(task)), timers.clock.now);
        StillPunctual(made);
      }
    }

    method PerformAll(ops: seq<Op>) returns (ghost made: seq<TimerBase>)
      requires Valid()
      modifies this`taskQueue, this`submitted
      modifies timers.tasks, timers.tasks.timers`prev, timers.tasks.timers`next, timers.tasks.timers`depth
      ensures Valid() && fresh(Elements(made))
      ensures submitted == old(submitted) + SubmitsOf(ops)
      ensures timers.tasks.timers == old(timers.tasks.timers) + Elements(made)
      ensures MadeBy(made, SetsOf(ops), timers.clock.now)
    {
      made := [];
      if ops != [] {
        var n := |ops| - 1;
        ghost var first := PerformAll(ops[..n]);
        ghost var more := PerformOp(ops[n]);
        OneOpMore(ops, first, more, timers.clock.now);
        made := first + more;
      }
    }

    /** Since there were `before`, `at` and `around`, the tasks `tasks` have run: they have submitted all that they
        submit, in order, and set a new timer, in `made`, for each of their `Set`s. */
    ghost predicate HaveRun(
      tasks: seq<nat>, made: seq<TimerBase>, before: seq<nat>, at: seq<nat>, around: set<TimerBase>)
      reads this, timers.clock, timers.tasks, timers.tasks.timers, set t | t in made
    {
      && Valid() && ran == before + tasks && submitted == at + SubmitsOfAll(tasks, code)
      && timers.tasks.timers == around + Elements(made)
      && MadeBy(made, SetsOfAll(tasks, code), timers.clock.now)
    }

    /** Takes the first task off the queue and runs it. */
    method RunNext() returns (ghost made: seq<TimerBase>)
      requires Valid() && taskQueue != []
      modifies this`taskQueue, this`submitted, this`ran
      modifies timers.tasks, timers.tasks.timers`prev, timers.tasks.timers`next, timers.tasks.timers`depth
      ensures Valid() && fresh(Elements(made)) && ran == old(ran) + [old(taskQueue[0])]
      ensures submitted == old(submitted) + SubmitsOf(code(old(taskQueue[0])))
      ensures timers.tasks.timers == old(timers.tasks.timers) + Elements(made)
      ensures MadeBy(made, SetsOf(code(old(taskQueue[0]))), timers.clock.now)
      ensures old(Punctual()) && ForwardCode() ==> Punctual()
    {
      var task := taskQueue[0];
      taskQueue := taskQueue[1..];
      ran := ran + [task];
      made := RunTask(task);
    }

    lemma OneTaskMore(tasks: seq<nat>, task: nat, made: seq<TimerBase>, more: seq<TimerBase>,
                      before: seq<nat>, at: seq<nat>, around: set<TimerBase>)
      requires Valid() && ran == before + tasks + [task]
      requires submitted == at + SubmitsOfAll(tasks, code) + SubmitsOf(code(task))
      requires timers.tasks.timers == around + Elements(made) + Elements(more) && Elements(made) !! Elements(more)
      requires MadeBy(made, SetsOfAll(tasks, code), timers.clock.now)
      requires MadeBy(more, SetsOf(code(task)), timers.clock.now)
      ensures HaveRun(tasks + [task], made + more, before, at, around)
    {
      assert (tasks + [task])[..|tasks|] == tasks;
      MadeMore(made, SetsOfAll(tasks, code), more, SetsOf(code(task)), timers.clock.now);
    }

    /** Runs tasks front first, at most `limit` of them, and stops early only when none is left. What has run
        has submitted all that it submits, in order, and set a new timer for each of its `Set`s. */
    method RunAtMostTasks(limit: nat) returns (done: nat, ghost made: seq<TimerBase>)
      requires Valid()
      modifies this`taskQueue, this`submitted, this`ran
      modifies timers.tasks, timers.tasks.timers`prev, timers.tasks.timers`next, timers.tasks.timers`depth
      ensures Valid() && fresh(Elements(made))
      ensures done <= limit && (done < limit ==> taskQueue == [])
      ensures old(ran) <= ran && |ran| == |old(ran)| + done
      ensures submitted == old(submitted) + SubmitsOfAll(ran[|old(ran)|..], code)
      ensures timers.tasks.timers == old(timers.tasks.timers) + Elements(made)
      ensures MadeBy(made, SetsOfAll(ran[|old(ran)|..], code), timers.clock.now)
      ensures old(Punctual()) && ForwardCode() ==> Punctual()
    {
      var count := 0;
      made := [];
      ghost var tasks := [];
      while true
        invariant HaveRun(tasks, made, old(ran), old(submitted), old(timers.tasks.timers))
        invariant fresh(Elements(made)) && count == |tasks| <= limit
        invariant old(Punctual()) && ForwardCode() ==> Punctual()
        decreases limit - count
      {
        var within := count < limit;
        count := count + 1;
        if !(within && taskQueue != []) {
          break;
        }
        ghost var task := taskQueue[0];
        ghost var more := RunNext();
        OneTaskMore(tasks, task, made, more, old(ran), old(submitted), old(timers.tasks.timers));
        made, tasks := made + more, tasks + [task];
      }
      done := count - 1;
      assert ran[|old(ran)|..] == tasks;
    }

    /** Timers that are not overdue when they are set leave a punctual runtime punctual. */
    twostate lemma StillPunctual(new made: seq<TimerBase>)
      requires old(Punctual()) && handed == old(handed) && timers.clock.now == old(timers.clock.now)
      requires timers.tasks.timers == old(timers.tasks.timers) + Elements(made)
      requires forall t :: t in old(timers.tasks.timers) ==> t.deadline == old(t.deadline)
      requires forall t :: t in Elements(made) ==> timers.clock.now <= t.deadline
      ensures Punctual()
    {
    }

    ghost function Snap(): Snapshot
      reads this, timers.clock, timers.tasks, timers.tasks.timers
    {
      Snapshot(timers.clock.now, taskQueue, submitted, ran, handed,
               map t | t in timers.tasks.timers :: t.deadline)
    }

    method DoPerform(op: Op) returns (ghost made: seq<TimerBase>)
      requires Valid()
      modifies this`taskQueue, this`submitted
      modifies timers.tasks, timers.tasks.timers`prev, timers.tasks.timers`next, timers.tasks.timers`depth
      ensures Valid() && fresh(Elements(made)) && timers.tasks.timers == old(timers.tasks.timers) + Elements(made)
      ensures Performed(Perform(op), code, old(Snap()), Snap(), [], made)
    {
      made := PerformOp(op);
    }

    method DoRun(limit: nat) returns (ghost made: seq<TimerBase>)
      requires Valid()
      modifies this`taskQueue, this`submitted, this`ran
      modifies timers.tasks, timers.tasks.timers`prev, timers.tasks.timers`next, timers.tasks.timers`depth
      ensures Valid() && fresh(Elements(made)) && timers.tasks.timers == old(timers.tasks.timers) + Elements(made)
      ensures Performed(RunAtMost(limit), code, old(Snap()), Snap(), [], made)
    {
      var done;
      done, made := RunAtMostTasks(limit);
    }

    method DoAdvance(delta: int) returns (ghost ready: seq<TimerBase>)
      requires Valid()
      modifies timers.clock, this`taskQueue, this`submitted, this`handed
      modifies timers.tasks, timers.tasks.timers`prev, timers.tasks.timers`next, timers.tasks.timers`depth
      ensures Valid() && timers.tasks.timers <= old(timers.tasks.timers)
      ensures Snap().now == old(Snap()).now + delta && Fired(old(Snap()), Snap(), ready)
    {
      var res, list := AdvanceClockBy(delta);
      ready := list;
      ReadyFires(ready, old(Snap()).pending, old(timers.tasks.timers), timers.clock.now);
    }

    method DoAdvanceToNext() returns (ok: bool, ghost ready: seq<TimerBase>)
      requires Valid()
      modifies timers.clock, this`taskQueue, this`submitted, this`handed
      modifies timers.tasks, timers.tasks.timers`prev, timers.tasks.timers`next, timers.tasks.timers`depth
      ensures Valid() && timers.tasks.timers <= old(timers.tasks.timers)
      ensures ok <==> old(timers.NoneOverdue())
      ensures ok ==> IsNextAfter(old(Snap()).pending, old(Snap()).now, Snap().now) && Fired(old(Snap()), Snap(), ready)
      ensures !ok ==> Snap() == old(Snap())
    {
      var res, list;
      ok, res, list := AdvanceClockToNextDeadline();
      ready := list;
      if ok {
        ReadyFires(ready, old(Snap()).pending, old(timers.tasks.timers), timers.clock.now);
        if old(timers.tasks.timers) != {} { NextIn(old(Snap()).pending, old(timers.tasks.timers), timers.clock.now); }
      }
    }

    /** Carries out one command. `ok` is the outcome of the clock's assertion: it fails only when some timer is
        overdue, and then nothing has happened. */
    method DoCommand(c: Command) returns (ok: bool, ghost ready: seq<TimerBase>, ghost made: seq<TimerBase>)
      requires Valid()
      modifies Footprint()
      ensures Valid() && fresh(Footprint() - old(Footprint()))
      ensures ok <==> !c.AdvanceToNext? || old(timers.NoneOverdue())
      ensures if ok then Performed(c, code, old(Snap()), Snap(), ready, made) else Snap() == old(Snap())
    {
      ok, ready, made := true, [], [];
      match c
      case Perform(op) =>
        made := DoPerform(op);
      case RunAtMost(limit) =>
        made := DoRun(limit);
      case AdvanceBy(delta) =>
        ready := DoAdvance(delta);
        FiredIsPerformed(c, code, old(Snap()), Snap(), ready);
      case AdvanceToNext =>
        ok, ready := DoAdvanceToNext();
        if ok { FiredIsPerformed(c, code, old(Snap()), Snap(), ready); }
    }

    lemma PunctualIsInTime()
      ensures Punctual() <==> InTime(Snap())
    {
      if InTime(Snap()) {
        forall t | t in timers.tasks.timers ensures timers.clock.now <= t.deadline { assert t in Snap().pending; }
      }
    }

    /** A command with no negative delay or delta never fails, and keeps the timers in order. */
    method PerformCommand(c: Command) returns (ok: bool, ghost ready: seq<TimerBase>, ghost made: seq<TimerBase>)
      requires Valid()
      modifies Footprint()
      ensures Valid() && fresh(Footprint() - old(Footprint()))
      ensures ok <==> !c.AdvanceToNext? || old(timers.NoneOverdue())
      ensures if ok then Performed(c, code, old(Snap()), Snap(), ready, made) else Snap() == old(Snap())
      ensures old(Punctual()) && ForwardCode() && ForwardCommand(c) ==> ok && Punctual()
    {
      ghost var s := Snap();
      PunctualIsInTime();
      ok, ready, made := DoCommand(c);
      if ok && ForwardCode() && ForwardCommand(c) && InTime(s) { StaysInTime(c, code, s, Snap(), ready, made); }
      PunctualIsInTime();
    }

    /** Whole runs: however the owner and the running tasks use the runtime, each command has exactly its effect
        on the one before; with no negative delay or delta the timers are handed over in the order of their
        deadlines, and the clock's assertion never fails. Tasks run in the order in which they were submitted,
        each once. */
    method Drive(commands: seq<Command>) returns (ok: bool, ghost log: seq<Entry>)
      requires Valid() && Punctual() && ForwardCode()
      requires forall i :: 0 <= i < |commands| ==> ForwardCommand(commands[i])
      modifies Footprint()
      ensures Valid() && ok && Sorted(handed)
      ensures |log| == |commands| && Follows(log, commands, code, old(Snap()), Snap())
    {
      ok, log := true, [];
      for i := 0 to |commands|
        invariant Valid() && fresh(Footprint() - old(Footprint()))
        invariant ok && Punctual()
        invariant |log| == i && Follows(log, commands[..i], code, old(Snap()), Snap())
      {
        ghost var before := Snap();
        ghost var ready, made;
        ok, ready, made := PerformCommand(commands[i]);
        log := log + [Entry(before, Snap(), ready, made)];
        assert commands[..i + 1][..i] == commands[..i];
        assert log[..i] == log[..|log| - 1];
      }
      assert commands[..|commands|] == commands;
    }
  }

  /** A negative delay makes the clock's assertion fail. */
  method NegativeDelayFails(delay: int) returns (ok: bool)
    ensures ok <==> delay >= 0
  {
    var runtime := new Runtime(task => []);
    ghost var made := runtime.PerformOp(Set(delay, 0));
    var res, ready;
    ok, res, ready := runtime.AdvanceClockToNextDeadline();
  }

  lemma SortedOnlyUpTo(before: seq<int>, after: seq<int>, at: int)
    requires Sorted(before + after) && at in after
    ensures AllUpTo(before, at)
  {
    var i :| 0 <= i < |after| && after[i] == at;
    forall k | 0 <= k < |before| ensures before[k] <= at {
      assert (before + after)[k] <= (before + after)[|before| + i];
    }
  }

  lemma OnlyTimer(op: Op, made: seq<TimerBase>, now: int) returns (timer: TimerBase)
    requires op.Set? && MadeBy(made, SetsOf([op]), now)
    ensures timer in Elements(made) && timer.deadline == now + op.delay
  {
    SetsOfOne(op);
    timer := made[0];
  }

  /** Sets a timer without delay and lets it fire. */
  method FireNow(runtime: Runtime, task: nat) returns (ghost late: seq<int>)
    requires runtime.Valid()
    modifies runtime.Footprint()
    ensures runtime.Valid() && fresh(runtime.Footprint() - old(runtime.Footprint()))
    ensures runtime.timers.clock.now == old(runtime.timers.clock.now)
    ensures runtime.timers.clock.now in late && runtime.handed == old(runtime.handed) + late
    ensures old(runtime.Punctual()) ==> runtime.Punctual()
  {
    ghost var now := runtime.timers.clock.now;
    ghost var made := runtime.PerformOp(Set(0, task));
    ghost var timer := OnlyTimer(Set(0, task), made, now);
    var res, ready := runtime.AdvanceClockBy(0);
    assert timer in ready;
    ghost var i :| 0 <= i < |ready| && ready[i] == timer;
    late := Deadlines(ready);
    assert late[i] == now;
  }

  /** Moves the clock of any punctual runtime by any delta and lets one more timer fire. Timers have been
      handed over in the order of their deadlines exactly if none handed over before lies after the time
      to which the clock was moved. */
  method FireAfter(runtime: Runtime, delta: int, task: nat)
    requires runtime.Valid() && runtime.Punctual()
    modifies runtime.Footprint()
    ensures runtime.Valid() && fresh(runtime.Footprint() - old(runtime.Footprint()))
    ensures runtime.timers.clock.now == old(runtime.timers.clock.now) + delta
    ensures runtime.timers.clock.now in runtime.handed
    ensures Sorted(runtime.handed) <==> AllUpTo(old(runtime.handed), runtime.timers.clock.now)
    ensures runtime.Punctual() <==> AllUpTo(old(runtime.handed), runtime.timers.clock.now)
  {
    var res, ready := runtime.AdvanceClockBy(delta);
    ghost var early := Deadlines(ready);
    ghost var late := FireNow(runtime, task);
    assert runtime.handed == old(runtime.handed) + (early + late);
    if Sorted(runtime.handed) { SortedOnlyUpTo(old(runtime.handed), early + late, runtime.timers.clock.now); }
  }

  /** A delta between two timers keeps them in order exactly if it is not negative. */
  method NegativeDeltaReorders(delta: int) returns (runtime: Runtime)
    ensures Sorted(runtime.handed) <==> delta >= 0
  {
    runtime := new Runtime(task => []);
    FireAfter(runtime, 0, 0);
    FireAfter(runtime, delta, 0);
  }
}
