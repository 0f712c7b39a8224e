/**
 What `Load` and `CompareExchangeWeak` return, over all runs of `HazardMachine`: a pointer that the
 cell held at a moment inside the call, to an object that has been alive since.
 */
module HazardAnswers {
  import opened HazardMachine
  import HazardSafety
  import opened Runs

  /** In `TryAddRef`, for the pointer `p`. */
  predicate Trying(pc: Pc, job: Job, p: Ptr) {
    pc.Do? && pc.job == job && (pc.stage.TryLoad? || pc.stage.TryCas?) && pc.stage.p == p
  }

  predicate CellIs(mem: Memory, job: Job, p: Ptr) {
    !job.RetireJob? && job.cell < |mem.cells| && mem.cells[job.cell] == p
  }

  /** About to re-load the cell, with `p` in the slot and in the cell. */
  predicate Confirms(mem: Memory, pc: Pc, job: Job, p: Ptr) {
    pc == Do(job, ProtectCheck(p)) && CellIs(mem, job, p)
  }

  /** In `run[j]` the cell held `p`, and since then up to `run[i]` the thread has been in this job and the
      object has not been destroyed. */
  ghost predicate HeldSince(run: seq<State>, j: nat, i: nat, t: nat, job: Job, p: Ptr) {
    && j <= i < |run| && CellIs(run[j].mem, job, p)
    && forall k :: j <= k <= i ==>
         && t < |run[k].threads| && run[k].threads[t].pc.Do? && run[k].threads[t].pc.job == job
         && (p != NULL ==> p in run[k].mem.heap)
  }

  // ---------------------------------------------------------------------------------------------
  // One step

  lemma JobTries(mem: Memory, th: Thread, job: Job, stage: Stage, spurious: bool, job': Job, p: Ptr)
    requires th.pc == Do(job, stage) && Trying(ExecJob(mem, th, job, stage, spurious).th.pc, job', p)
    ensures Trying(th.pc, job', p) || Confirms(mem, th.pc, job', p)
  {
  }

  /** A thread gets into `TryAddRef` only by a re-load that finds the same pointer. */
  lemma ExecTries(mem: Memory, th: Thread, a: Act, job: Job, p: Ptr)
    requires Enabled(mem, th, a) && Trying(Exec(mem, th, a).th.pc, job, p)
    ensures Trying(th.pc, job, p) || Confirms(mem, th.pc, job, p)
  {
    if a.Go? && th.pc.Do? { JobTries(mem, th, th.pc.job, th.pc.stage, a.spurious, job, p); }
  }

  lemma NextTries(s: State, s': State, t: nat, job: Job, p: Ptr)
    requires Next(s, s') && t < |s'.threads| && Trying(s'.threads[t].pc, job, p)
    ensures t < |s.threads| && (Trying(s.threads[t].pc, job, p) || Confirms(s.mem, s.threads[t].pc, job, p))
  {
    if u: nat, a :| u < |s.threads| && Enabled(s.mem, s.threads[u], a) && s' == Step(s, u, a) {
      if u == t { ExecTries(s.mem, s.threads[t], a, job, p); }
    }
  }

  lemma TriedIsAlive(s: State, t: nat, job: Job, p: Ptr)
    requires HazardSafety.Inv(s) && t < |s.threads| && Trying(s.threads[t].pc, job, p)
    ensures p != NULL && p in s.mem.heap && !job.RetireJob?
  {
    assert HazardSafety.WellFormed(s.mem, s.threads[t]);
  }

  lemma ConfirmedIsAlive(s: State, t: nat, job: Job, p: Ptr)
    requires HazardSafety.Inv(s) && t < |s.threads| && CellIs(s.mem, job, p) && p != NULL
    ensures p in s.mem.heap
  {
    HazardSafety.OwnedIsLive(s, t, p);
  }

  // ---------------------------------------------------------------------------------------------
  // Runs

  lemma NotAtFirst(run: seq<State>, t: nat)
    requires IsRun(Init, Next, run) && t < |run[0].threads|
    ensures !run[0].threads[t].pc.Do?
  {
  }

  lemma AliveWhileTrying(run: seq<State>, i: nat, t: nat, job: Job, p: Ptr)
    requires IsRun(Init, Next, run) && i < |run| && t < |run[i].threads|
    requires Trying(run[i].threads[t].pc, job, p)
    ensures p != NULL && p in run[i].mem.heap
  {
    HazardSafety.RunKeepsInv(run, i);
    TriedIsAlive(run[i], t, job, p);
  }

  lemma AliveWhenConfirmed(run: seq<State>, i: nat, t: nat, job: Job, p: Ptr)
    requires IsRun(Init, Next, run) && i < |run| && t < |run[i].threads|
    requires CellIs(run[i].mem, job, p) && p != NULL
    ensures p in run[i].mem.heap
  {
    HazardSafety.RunKeepsInv(run, i);
    ConfirmedIsAlive(run[i], t, job, p);
  }

  /** A state in which the thread tries has, before it, one in which it tries or confirms. */
  ghost predicate Linked(s: State, s': State, t: nat, job: Job, p: Ptr) {
    t < |s'.threads| && Trying(s'.threads[t].pc, job, p) ==>
      && p in s'.mem.heap && t < |s.threads|
      && (Trying(s.threads[t].pc, job, p) || (Confirms(s.mem, s.threads[t].pc, job, p) && p in s.mem.heap))
  }

  lemma RunLinked(run: seq<State>, i: nat, t: nat, job: Job, p: Ptr)
    requires IsRun(Init, Next, run) && i + 1 < |run|
    ensures Linked(run[i], run[i + 1], t, job, p)
  {
    if t < |run[i + 1].threads| && Trying(run[i + 1].threads[t].pc, job, p) {
      AliveWhileTrying(run, i + 1, t, job, p);
      NextTries(run[i], run[i + 1], t, job, p);
      if !Trying(run[i].threads[t].pc, job, p) { AliveWhenConfirmed(run, i, t, job, p); }
    }
  }

  lemma {:induction false} TriedAlong(run: seq<State>, i: nat, t: nat, job: Job, p: Ptr) returns (j: nat)
    requires forall k, l :: 0 <= k < l < |run| && l == k + 1 ==> Linked(run[k], run[l], t, job, p)
    requires |run| > 0 && (t < |run[0].threads| ==> !run[0].threads[t].pc.Do?)
    requires i < |run| && t < |run[i].threads| && Trying(run[i].threads[t].pc, job, p)
    ensures HeldSince(run, j, i, t, job, p)
  {
    assert Linked(run[i - 1], run[i], t, job, p);
    if Trying(run[i - 1].threads[t].pc, job, p) {
      j := TriedAlong(run, i - 1, t, job, p);
    } else {
      j := i - 1;
    }
  }

  /** What `TryAddRef` is after was in the cell, at an earlier moment of the same job. */
  lemma TriedWasInCell(run: seq<State>, i: nat, t: nat, job: Job, p: Ptr) returns (j: nat)
    requires IsRun(Init, Next, run) && i < |run| && t < |run[i].threads|
    requires Trying(run[i].threads[t].pc, job, p)
    ensures HeldSince(run, j, i, t, job, p)
  {
    forall k, l | 0 <= k < l < |run| && l == k + 1 ensures Linked(run[k], run[l], t, job, p) {
      RunLinked(run, k, t, job, p);
    }
    if t < |run[0].threads| { NotAtFirst(run, t); }
    j := TriedAlong(run, i, t, job, p);
  }

  /** The end of a job from `CellCas` or with a null pointer, where the answer is in the cell right now. */
  lemma EndsAtOnce(mem: Memory, th: Thread, spurious: bool) returns (p: Ptr)
    requires HazardSafety.WellFormed(mem, th) && th.pc.Do? && !th.pc.job.RetireJob?
    requires !th.pc.stage.TryLoad? && !th.pc.stage.TryCas?
    requires Exec(mem, th, Go(spurious)).th.pc == Ready
    ensures CellIs(mem, th.pc.job, p) && Returns(mem, th, Exec(mem, th, Go(spurious)), p)
  {
    p := mem.cells[th.pc.job.cell];
    assert Own(NULL) == multiset{};
  }

  /** The step `e` ends the job of `th` with the pointer `p` for the caller: `CompareExchangeWeak` answers
      true, and swaps, exactly if that is the expected one. */
  ghost predicate Returns(mem: Memory, th: Thread, e: Effect, p: Ptr)
    requires th.pc.Do? && !th.pc.job.RetireJob? && th.pc.job.cell < |mem.cells|
  {
    var job := th.pc.job;
    && e.th.held == th.held + Own(p)
    && (e.th.answer <==> job.CasJob? && p == job.expected)
    && e.mem.cells == if job.CasJob? && p == job.expected then mem.cells[job.cell := job.desired] else mem.cells
  }

  lemma EndsTrying(mem: Memory, th: Thread, spurious: bool)
    requires HazardSafety.WellFormed(mem, th) && th.pc.Do? && (th.pc.stage.TryLoad? || th.pc.stage.TryCas?)
    requires Exec(mem, th, Go(spurious)).th.pc == Ready
    ensures !th.pc.job.RetireJob? && Returns(mem, th, Exec(mem, th, Go(spurious)), th.pc.stage.p)
  {
  }

  /** Whatever a `Load` or a `CompareExchangeWeak` returns, the cell held it at a moment inside the call, and
      the object has been alive since then; a successful `CompareExchangeWeak` finds it there in its last
      step. */
  lemma AnswerWasInCell(run: seq<State>, i: nat, t: nat, spurious: bool) returns (j: nat, p: Ptr)
    requires IsRun(Init, Next, run) && i < |run| && t < |run[i].threads|
    requires run[i].threads[t].pc.Do? && !run[i].threads[t].pc.job.RetireJob?
    requires Exec(run[i].mem, run[i].threads[t], Go(spurious)).th.pc == Ready
    ensures HeldSince(run, j, i, t, run[i].threads[t].pc.job, p)
    ensures run[i].threads[t].pc.job.cell < |run[i].mem.cells|
    ensures var e := Exec(run[i].mem, run[i].threads[t], Go(spurious));
      Returns(run[i].mem, run[i].threads[t], e, p) && (e.th.answer ==> j == i)
  {
    HazardSafety.RunKeepsInv(run, i);
    var s, th := run[i], run[i].threads[t];
    assert HazardSafety.WellFormed(s.mem, th);
    if th.pc.stage.TryLoad? || th.pc.stage.TryCas? {
      p := th.pc.stage.p;
      EndsTrying(s.mem, th, spurious);
      j := TriedWasInCell(run, i, t, th.pc.job, p);
    } else {
      j := i;
      p := EndsAtOnce(s.mem, th, spurious);
      if p != NULL { ConfirmedIsAlive(s, t, th.pc.job, p); }
    }
  }
}
