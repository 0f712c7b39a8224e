/**
 Whole calls over all runs of `RingMachine`: a thread works on the task or with the room its caller gave, its
 answer is what a bounded FIFO queue gives to that call, and a call that is left alone ends.
 */
module RingCalls {
  import opened Common
  import opened RingMachine
  import RingSafety
  import opened Runs

  // ---------------------------------------------------------------------------------------------
  // Calls

  ghost predicate OwnTurn(s: State, s': State, t: nat, a: Act) {
    t < |s.threads| && |s.ring.buffer| > 0 && Enabled(t, s.threads[t], a) && s' == Step(s, t, a)
  }

  ghost predicate TakesTurn(s: State, s': State, t: nat) { exists a :: OwnTurn(s, s', t, a) }

  ghost predicate Starts(s: State, s': State, t: nat, call: Act) { !call.Go? && OwnTurn(s, s', t, call) }

  ghost predicate StartsSome(s: State, s': State, t: nat) { exists call :: Starts(s, s', t, call) }

  /** Thread `t` starts `call` in the step from `run[j]` and has not returned before `run[i]`. */
  ghost predicate Span(run: seq<State>, j: nat, i: nat, t: nat, call: Act) {
    && j < i < |run| && Starts(run[j], run[j + 1], t, call)
    && t < |run[i].threads|
    && forall k :: j < k < i ==> t < |run[k].threads| && !run[k].threads[t].Idle?
  }

  /** Inside the call, with its own argument. */
  predicate OfCall(pc: Pc, call: Act) {
    match call
    case TryPush(task) => Pushing(pc) && pc.task == task
    case TryPop => pc.PopStart? || pc.PopTail? || pc.PopSlot? || pc.PopCas?
    case Grab(room) => (pc.GrabStart? || pc.GrabTail? || pc.GrabCopy? || pc.GrabCas?) && pc.room == room
    case Go(_) => false
  }

  /** What a bounded FIFO queue with contents `q` answers to a call, and its contents afterwards. A `Grab` takes
      a prefix that fits; which one is `GrabAnswer`. */
  ghost predicate Answers(q: seq<Task>, q': seq<Task>, capacity: nat, call: Act, answer: Result) {
    match call
    case TryPush(task) => answer == Pushed(|q| < capacity) && q' == if |q| < capacity then q + [task] else q
    case TryPop => answer == Popped(q[..Min(1, |q|)]) && q' == q[Min(1, |q|)..]
    case Grab(room) => answer.Popped? && answer.tasks <= q && |answer.tasks| <= room && q' == q[|answer.tasks|..]
    case Go(_) => false
  }

  // ---------------------------------------------------------------------------------------------
  // One step

  lemma TakeGoesOn(r: Ring, pc: Pc, call: Act, spurious: bool)
    requires RingSafety.RingOk(r) && RingSafety.PcOk(r, pc) && OfCall(pc, call) && !Pushing(pc)
    ensures var e := ExecTake(r, pc, spurious);
      var q, q' := RingSafety.Contents(r), RingSafety.Contents(e.ring);
      if e.pc.Idle? then Answers(q, q', |r.buffer|, call, e.pc.last) else OfCall(e.pc, call) && q' == q
  {
    RingSafety.TakeLinearizes(r, pc, spurious);
  }

  lemma PushGoesOn(r: Ring, pc: Pc, call: Act)
    requires RingSafety.RingOk(r) && RingSafety.PcOk(r, pc) && OfCall(pc, call) && Pushing(pc)
    ensures var e := ExecPush(r, pc);
      var q, q' := RingSafety.Contents(r), RingSafety.Contents(e.ring);
      if e.pc.Idle? then Answers(q, q', |r.buffer|, call, e.pc.last) else OfCall(e.pc, call) && q' == q
  {
    RingSafety.PushLinearizes(r, pc);
  }

  /** A step of a thread inside `call`: the queue stays and the call goes on, or the call ends with its answer. */
  ghost predicate Proceeds(s: State, s': State, t: nat, call: Act) {
    && t < |s'.threads|
    && var q, q' := RingSafety.Contents(s.ring), RingSafety.Contents(s'.ring);
       if s'.threads[t].Idle? then Answers(q, q', |s.ring.buffer|, call, s'.threads[t].last)
       else OfCall(s'.threads[t], call) && q' == q
  }

  lemma OwnStep(s: State, s': State, t: nat, call: Act)
    requires RingSafety.Inv(s) && TakesTurn(s, s', t) && OfCall(s.threads[t], call)
    ensures Proceeds(s, s', t, call)
  {
    var a :| OwnTurn(s, s', t, a);
    if Pushing(s.threads[t]) {
      PushGoesOn(s.ring, s.threads[t], call);
    } else {
      TakeGoesOn(s.ring, s.threads[t], call, a.spurious);
    }
  }

  /** A thread starts a call with its argument, and the queue stays. */
  lemma StartStep(s: State, s': State, t: nat, call: Act)
    requires Starts(s, s', t, call)
    ensures s'.ring == s.ring && t < |s'.threads| && OfCall(s'.threads[t], call)
  {
  }

  lemma NextIsOwnOrOther(s: State, s': State, t: nat)
    requires Next(s, s') && t < |s'.threads|
    ensures t < |s.threads| && (TakesTurn(s, s', t) || s'.threads[t] == s.threads[t])
  {
    var u: nat, a :| u < |s.threads| && |s.ring.buffer| > 0 && Enabled(u, s.threads[u], a) && s' == Step(s, u, a);
    if u == t { assert OwnTurn(s, s', t, a); }
  }

  // ---------------------------------------------------------------------------------------------
  // Over runs

  /** Inside a call a thread stays inside it, with its argument, as long as it has not returned. */
  ghost predicate Linked(s: State, s': State, t: nat, call: Act) {
    t < |s.threads| && OfCall(s.threads[t], call) ==>
      t < |s'.threads| && (s'.threads[t].Idle? || OfCall(s'.threads[t], call))
  }

  ghost predicate LinkedAt(run: seq<State>, k: int, t: nat, call: Act) {
    0 <= k && k + 1 < |run| ==> Linked(run[k], run[k + 1], t, call)
  }

  lemma NextLinked(s: State, s': State, t: nat, call: Act)
    requires RingSafety.Inv(s) && Next(s, s')
    ensures Linked(s, s', t, call)
  {
    if t < |s.threads| && OfCall(s.threads[t], call) {
      assert |s'.threads| == |s.threads|;
      NextIsOwnOrOther(s, s', t);
      if TakesTurn(s, s', t) { OwnStep(s, s', t, call); }
    }
  }

  lemma {:induction false} Along(run: seq<State>, j: nat, i: nat, t: nat, call: Act)
    requires forall k :: LinkedAt(run, k, t, call)
    requires Span(run, j, i, t, call) && !run[i].threads[t].Idle?
    ensures OfCall(run[i].threads[t], call)
  {
    if i == j + 1 {
      StartStep(run[j], run[i], t, call);
    } else {
      Along(run, j, i - 1, t, call);
      assert LinkedAt(run, i - 1, t, call);
    }
  }

  /** A thread inside a call works with the argument of that call. */
  lemma InsideItsCall(run: seq<State>, j: nat, i: nat, t: nat, call: Act)
    requires IsRun(Init, Next, run) && Span(run, j, i, t, call) && !run[i].threads[t].Idle?
    ensures OfCall(run[i].threads[t], call)
  {
    forall k ensures LinkedAt(run, k, t, call) {
      if 0 <= k && k + 1 < |run| {
        RingSafety.RunKeepsInv(run, k);
        NextLinked(run[k], run[k + 1], t, call);
      }
    }
    Along(run, j, i, t, call);
  }

  /** Who is busy after a step was busy before it, or starts a call in it. */
  ghost predicate BusyFrom(s: State, s': State, t: nat) {
    t < |s'.threads| && !s'.threads[t].Idle? ==>
      t < |s.threads| && (!s.threads[t].Idle? || StartsSome(s, s', t))
  }

  ghost predicate BusyFromAt(run: seq<State>, k: int, t: nat) {
    0 <= k && k + 1 < |run| ==> BusyFrom(run[k], run[k + 1], t)
  }

  lemma NextBusyFrom(s: State, s': State, t: nat)
    requires Next(s, s')
    ensures BusyFrom(s, s', t)
  {
    if t < |s'.threads| && !s'.threads[t].Idle? {
      NextIsOwnOrOther(s, s', t);
      if a :| OwnTurn(s, s', t, a) {
        if s.threads[t].Idle? { assert Starts(s, s', t, a); }
      }
    }
  }

  lemma {:induction false} CallAlong(run: seq<State>, i: nat, t: nat) returns (j: nat, call: Act)
    requires forall k :: BusyFromAt(run, k, t)
    requires |run| > 0 && (t < |run[0].threads| ==> run[0].threads[t].Idle?)
    requires i < |run| && t < |run[i].threads| && !run[i].threads[t].Idle?
    ensures Span(run, j, i, t, call)
  {
    assert BusyFromAt(run, i - 1, t);
    if run[i - 1].threads[t].Idle? {
      j := i - 1;
      call :| Starts(run[j], run[i], t, call);
    } else {
      j, call := CallAlong(run, i - 1, t);
    }
  }

  /** Who is busy is inside a call. */
  lemma CallOf(run: seq<State>, i: nat, t: nat) returns (j: nat, call: Act)
    requires IsRun(Init, Next, run) && i < |run| && t < |run[i].threads| && !run[i].threads[t].Idle?
    ensures Span(run, j, i, t, call)
  {
    forall k ensures BusyFromAt(run, k, t) {
      if 0 <= k && k + 1 < |run| { NextBusyFrom(run[k], run[k + 1], t); }
    }
    j, call := CallAlong(run, i, t);
  }

  // ---------------------------------------------------------------------------------------------
  // Results

  /** Linearizability: inside a call every step of its thread leaves the queue alone, but for the last one, at
      which the queue changes and the call answers as a bounded FIFO queue does to that very call. */
  lemma Linearizable(run: seq<State>, j: nat, i: nat, t: nat, call: Act)
    requires IsRun(Init, Next, run) && Span(run, j, i, t, call) && !run[i].threads[t].Idle?
    requires i + 1 < |run| && TakesTurn(run[i], run[i + 1], t)
    ensures Proceeds(run[i], run[i + 1], t, call)
  {
    RingSafety.RunKeepsInv(run, i);
    InsideItsCall(run, j, i, t, call);
    OwnStep(run[i], run[i + 1], t, call);
  }

  /** The queue changes only at the end of a call, by what that call is for. */
  lemma OnlyAnswersChange(run: seq<State>, i: nat) returns (t: nat, j: nat, call: Act)
    requires IsRun(Init, Next, run) && i + 1 < |run|
    requires RingSafety.Contents(run[i + 1].ring) != RingSafety.Contents(run[i].ring)
    ensures Span(run, j, i + 1, t, call) && run[i + 1].threads[t].Idle?
    ensures Answers(RingSafety.Contents(run[i].ring), RingSafety.Contents(run[i + 1].ring), |run[i].ring.buffer|, call,
                    run[i + 1].threads[t].last)
  {
    var a;
    t, a := WhoMoves(run[i], run[i + 1]);
    BusyWhoChanges(run[i], run[i + 1], t, a);
    j, call := CallOf(run, i, t);
    Linearizable(run, j, i, t, call);
  }

  lemma BusyWhoChanges(s: State, s': State, t: nat, a: Act)
    requires OwnTurn(s, s', t, a) && RingSafety.Contents(s'.ring) != RingSafety.Contents(s.ring)
    ensures !s.threads[t].Idle?
  {
  }

  lemma WhoMoves(s: State, s': State) returns (t: nat, a: Act)
    requires Next(s, s')
    ensures OwnTurn(s, s', t, a) && TakesTurn(s, s', t)
  {
    t, a :| t < |s.threads| && |s.ring.buffer| > 0 && Enabled(t, s.threads[t], a) && s' == Step(s, t, a);
    assert OwnTurn(s, s', t, a);
  }

  /** A `Grab(room)` that ends in the step from `run[i]` takes what a bounded FIFO queue gives to `Grab(room)` at
      the moment `k`, inside the call, at which its last round loaded `tail_`; nothing has been taken since. So
      one that comes back with nothing into a buffer that is not empty found the ring empty then, and one that
      comes back short took all there was. For the owner, the only one who pushes, `k` is as good as now. */
  lemma GrabAnswer(run: seq<State>, j: nat, i: nat, t: nat, room: nat) returns (k: nat)
    requires IsRun(Init, Next, run) && Span(run, j, i, t, Grab(room)) && !run[i].threads[t].Idle?
    requires i + 1 < |run| && TakesTurn(run[i], run[i + 1], t) && run[i + 1].threads[t].Idle?
    ensures j < k < i
    ensures var q := RingSafety.Contents(run[k].ring);
      && run[i + 1].threads[t].last == Popped(q[..Min(room, |q|)])
      && q <= RingSafety.Contents(run[i].ring) && (t == OWNER ==> q == RingSafety.Contents(run[i].ring))
      && RingSafety.Contents(run[i + 1].ring) == RingSafety.Contents(run[i].ring)[Min(room, |q|)..]
  {
    InsideItsCall(run, j, i, t, Grab(room));
    Linearizable(run, j, i, t, Grab(room));
    k := RingSafety.RoundAnswer(run, i, t);
    assert run[j].threads[t].Idle? && RingSafety.InRound(run[k], t, run[i].threads[t]);
  }

  /** That is what the queue gives at the end of the call as well exactly if the buffer is full or nothing has
      been pushed since `tail_` was loaded. */
  lemma GrabExactIff(run: seq<State>, j: nat, i: nat, t: nat, room: nat)
    requires IsRun(Init, Next, run) && Span(run, j, i, t, Grab(room)) && !run[i].threads[t].Idle?
    requires i + 1 < |run| && TakesTurn(run[i], run[i + 1], t) && run[i + 1].threads[t].Idle?
    ensures run[i].threads[t].GrabCas? && run[i + 1].threads[t].last.Popped?
    ensures var q, got := RingSafety.Contents(run[i].ring), run[i + 1].threads[t].last.tasks;
      got == q[..Min(room, |q|)] <==> |got| == room || run[i].ring.tail == run[i].threads[t].tail
  {
    InsideItsCall(run, j, i, t, Grab(room));
    RingSafety.RoundExactIff(run, i, t);
  }

  // ---------------------------------------------------------------------------------------------
  // A call that is left alone ends

  /** A bound on the steps to the end, if nobody interferes: a stale `head_` costs one more round. */
  function Effort(r: Ring, pc: Pc): nat {
    match pc
    case Idle(_) => 0
    case PushStart(_) => 4
    case PushHead(_, _) => 3
    case PushStore(_, _, _) => 2
    case PushTail(_, _) => 1
    case PopStart => 4
    case PopTail(head) => 3 + Again(head != r.head, 4)
    case PopSlot(head, _) => 2 + Again(head != r.head, 4)
    case PopCas(head, _) => 1 + Again(head != r.head, 4)
    case GrabStart(room) => room + 4
    case GrabTail(room, head) => room + 3 + Again(head != r.head, room + 4)
    case GrabCopy(room, head, _, got) => Rest(room, |got|) + 2 + Again(head != r.head, room + 4)
    case GrabCas(room, head, _, _) => 1 + Again(head != r.head, room + 4)
  }

  function Rest(room: nat, got: nat): nat { if got <= room then room - got else 0 }

  function Again(stale: bool, cost: nat): nat { if stale then cost else 0 }

  /** A step that is not a spurious failure of a CAS, of a thread that nobody interferes with, brings its call
      closer to its end. So a call left alone ends. */
  lemma LeftAloneEnds(run: seq<State>, i: nat, t: nat)
    requires IsRun(Init, Next, run) && i < |run| && t < |run[i].threads| && !run[i].threads[t].Idle?
    ensures |run[i].ring.buffer| > 0
    ensures var s' := Step(run[i], t, Go(false));
      Effort(s'.ring, s'.threads[t]) < Effort(run[i].ring, run[i].threads[t])
  {
    RingSafety.RunKeepsInv(run, i);
    var r, pc := run[i].ring, run[i].threads[t];
    assert RingSafety.PcOk(r, pc);
    EffortFalls(r, pc);
  }

  lemma EffortFalls(r: Ring, pc: Pc)
    requires RingSafety.RingOk(r) && RingSafety.PcOk(r, pc) && !pc.Idle?
    ensures var e := Exec(r, pc, Go(false)); Effort(e.ring, e.pc) < Effort(r, pc)
  {
    if Pushing(pc) {
      PushEffortFalls(r, pc);
    } else if pc.PopStart? || pc.PopTail? || pc.PopSlot? || pc.PopCas? {
      PopEffortFalls(r, pc);
    } else {
      GrabEffortFalls(r, pc);
    }
  }

  lemma PushEffortFalls(r: Ring, pc: Pc)
    requires RingSafety.RingOk(r) && Pushing(pc)
    ensures var e := ExecPush(r, pc); Effort(e.ring, e.pc) < Effort(r, pc)
  {
    if pc.PushStore? { RingSafety.ModIsRemainder(|r.buffer|, pc.tail); }
  }

  lemma PopEffortFalls(r: Ring, pc: Pc)
    requires RingSafety.RingOk(r) && (pc.PopStart? || pc.PopTail? || pc.PopSlot? || pc.PopCas?)
    ensures var e := ExecTake(r, pc, false); Effort(e.ring, e.pc) < Effort(r, pc)
  {
    if pc.PopSlot? { RingSafety.ModIsRemainder(|r.buffer|, pc.head); }
  }

  lemma GrabEffortFalls(r: Ring, pc: Pc)
    requires RingSafety.RingOk(r) && (pc.GrabStart? || pc.GrabTail? || pc.GrabCopy? || pc.GrabCas?)
    ensures var e := ExecTake(r, pc, false); Effort(e.ring, e.pc) < Effort(r, pc)
  {
    if pc.GrabCopy? { RingSafety.ModIsRemainder(|r.buffer|, pc.head + |pc.got|); }
  }
}
