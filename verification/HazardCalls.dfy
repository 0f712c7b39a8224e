/**
 Whole calls over all runs of `HazardMachine`: which call a busy thread is in, what a `Store` and a
 `CompareExchangeWeak` write, and that nothing else writes a cell.
 */
module HazardCalls {
  import opened HazardMachine
  import HazardAnswers
  import HazardSafety
  import opened Runs

  // ---------------------------------------------------------------------------------------------
  // Calls

  ghost predicate Starts(s: State, s': State, t: nat, call: Act) {
    t < |s.threads| && !call.Go? && Enabled(s.mem, s.threads[t], call) && s' == Step(s, t, call)
  }

  /** Thread `t` starts `call` in the step from `run[j]` and has not returned before `run[i]`. */
  ghost predicate Span(run: seq<State>, j: nat, i: nat, t: nat, call: Act) {
    && j < i < |run| && Starts(run[j], run[j + 1], t, call)
    && t < |run[i].threads|
    && forall k :: j < k < i ==> t < |run[k].threads| && !Idle(run[k].threads[t])
  }

  /** The thread takes this step. */
  ghost predicate OwnTurn(s: State, s': State, t: nat, a: Act) {
    t < |s.threads| && Enabled(s.mem, s.threads[t], a) && s' == Step(s, t, a)
  }

  ghost predicate TakesTurn(s: State, s': State, t: nat) { exists a :: OwnTurn(s, s', t, a) }

  /** No cell changes, and the thread's `SharedPtr`s stay. */
  ghost predicate Quiet(s: State, s': State, t: nat) {
    && s'.mem.cells == s.mem.cells
    && t < |s.threads| == |s'.threads| && s'.threads[t].held == s.threads[t].held
  }

  /** That is so if the thread takes this step. */
  ghost predicate OwnQuiet(s: State, s': State, t: nat) { forall a :: OwnTurn(s, s', t, a) ==> Quiet(s, s', t) }

  ghost predicate QuietAt(run: seq<State>, k: int, t: nat) {
    0 <= k && k + 1 < |run| ==> OwnQuiet(run[k], run[k + 1], t)
  }

  /** Between `run[j]` and `run[i]`, no step of the thread changes a cell or its `SharedPtr`s, but for the one
      from `run[w]`. */
  ghost predicate QuietBut(run: seq<State>, j: nat, i: nat, t: nat, w: nat) {
    forall k :: j <= k < i && k != w ==> QuietAt(run, k, t)
  }

  lemma StillQuiet(run: seq<State>, j: nat, h: nat, t: nat, w: nat)
    requires QuietBut(run, j, h, t, w) && j <= h && h + 1 < |run| && OwnQuiet(run[h], run[h + 1], t)
    ensures QuietBut(run, j, h + 1, t, w)
    ensures w == h ==> QuietBut(run, j, h + 1, t, h + 1)
  {
    assert QuietAt(run, h, t);
  }

  /** What other threads' steps may do to a thread. */
  predicate Untouched(th: Thread, th': Thread) { th' == th.(held := th'.held) }

  /** Dropping references, resetting the slot, retiring and collecting: what ends a call. */
  predicate Leaving(pc: Pc) {
    || pc == Ready || pc.Collect?
    || (pc.Do? && pc.job.RetireJob? && (pc.stage.GetMutator? || pc.stage.RegisterLoad? || pc.stage.RegisterCas?))
  }

  /** Before the end of the call, with the arguments of the call. */
  predicate Before(pc: Pc, call: Act) {
    match call
    case Store(c, n) => pc == StoreAddRef(c, n) || pc == Exchange(c, n)
    case CompareExchange(c, e, d) => pc == CasAddRef(c, e, d) || (pc.Do? && pc.job == CasJob(c, e, d))
    case Load(c) => pc.Do? && pc.job == LoadJob(c)
    case _ => false
  }

  /** `MakeShared`, a copy or a reset: over at once but for the drop of a reference. */
  predicate Plain(call: Act) { call.MakeShared? || call.Copy? || call.Reset? }

  /** The `SharedPtr`s that a call takes from its thread at once, and those that it makes. */
  function Takes(call: Act): multiset<Ptr> {
    match call
    case Reset(p) => multiset{p}
    case Store(_, n) => Own(n)
    case CompareExchange(_, e, d) => Own(e) + Own(d)
    case _ => multiset{}
  }

  function Makes(call: Act): multiset<Ptr> {
    match call
    case MakeShared(p) => multiset{p}
    case Copy(p) => multiset{p}
    case _ => multiset{}
  }

  ghost predicate Begins(s: State, s': State, t: nat, call: Act) {
    && s'.mem.cells == s.mem.cells && t < |s.threads| == |s'.threads|
    && s'.threads[t].held == s.threads[t].held - Takes(call) + Makes(call)
  }

  /** The one step in which a call takes effect for its caller. `Store(c, n)` puts `n` into the cell and sets
      out to drop `p`, which was there. `CompareExchangeWeak(c, e, d)` hands `p` to its caller, and exactly if
      that is `e`, finds it in the cell, puts `d` there and answers true. `Load(c)` hands `p` to its caller. */
  ghost predicate Ends(s: State, s': State, t: nat, call: Act, p: Ptr) {
    && t < |s.threads| == |s'.threads|
    && var th, th' := s.threads[t], s'.threads[t];
       match call
       case Store(c, n) =>
         && th.pc == Exchange(c, n)
         && c < |s.mem.cells| && p == s.mem.cells[c] && s'.mem == s.mem.(cells := s.mem.cells[c := n])
         && th' == th.(pc := Ready, todo := Drop(p) + th.todo)
       case CompareExchange(c, e, d) =>
         && c < |s.mem.cells| && th.pc.Do? && th.pc.job == CasJob(c, e, d)
         && if p == e then Swaps(s.mem, th, s'.mem, th', c, e, d)
            else s'.mem.cells == s.mem.cells && HandsOver(th, th', p, Drop(d) + Drop(e) + [ResetSlot], false)
       case Load(c) =>
         && th.pc.Do? && th.pc.job == LoadJob(c)
         && s'.mem.cells == s.mem.cells && HandsOver(th, th', p, [ResetSlot], false)
       case _ => false
  }

  ghost predicate Swaps(mem: Memory, th: Thread, mem': Memory, th': Thread, c: nat, e: Ptr, d: Ptr) {
    && c < |mem.cells| && mem.cells[c] == e && mem' == mem.(cells := mem.cells[c := d])
    && HandsOver(th, th', e, Drop(e) + [ResetSlot], true)
  }

  /** The thread gets a reference to `p`, has `first` to do before anything else, and answers. */
  ghost predicate HandsOver(th: Thread, th': Thread, p: Ptr, first: seq<Todo>, answer: bool) {
    th' == th.(pc := Ready, held := th.held + Own(p), todo := first + th.todo, answer := answer)
  }

  ghost predicate EndsSome(s: State, s': State, t: nat, call: Act) { exists p :: Ends(s, s', t, call, p) }

  // ---------------------------------------------------------------------------------------------
  // One step

  lemma CallBegins(mem: Memory, th: Thread, call: Act)
    requires Enabled(mem, th, call) && !call.Go?
    ensures var e := Call(mem, th, call);
      && e.mem.cells == mem.cells && e.th.held == th.held - Takes(call) + Makes(call)
      && (Before(e.th.pc, call) || (Plain(call) && Leaving(e.th.pc)))
  {
  }

  lemma LeavingJob(mem: Memory, th: Thread, spurious: bool)
    requires th.pc.Do? && Leaving(th.pc)
    ensures var e := ExecJob(mem, th, th.pc.job, th.pc.stage, spurious);
      Leaving(e.th.pc) && e.mem.cells == mem.cells && e.th.answer == th.answer && e.th.held == th.held
  {
  }

  lemma LeavingStays(mem: Memory, th: Thread, spurious: bool)
    requires !Idle(th) && Leaving(th.pc)
    ensures var e := Exec(mem, th, Go(spurious));
      Leaving(e.th.pc) && e.mem.cells == mem.cells && e.th.answer == th.answer && e.th.held == th.held
  {
    if th.pc.Do? { LeavingJob(mem, th, spurious); }
  }

  lemma StoreGoesOn(s: State, t: nat, call: Act, spurious: bool)
    requires t < |s.threads| && call.Store? && Before(s.threads[t].pc, call) && call.cell < |s.mem.cells|
    ensures var s' := Step(s, t, Go(spurious));
      if s.threads[t].pc.StoreAddRef? then Before(s'.threads[t].pc, call) && Quiet(s, s', t)
      else Ends(s, s', t, call, s.mem.cells[call.cell])
  {
  }

  /** In a job of `Load` or `CompareExchangeWeak`, with an expected pointer that is not what is being tried. */
  ghost predicate AtWork(mem: Memory, th: Thread, call: Act) {
    && (call.CompareExchange? || call.Load?) && Before(th.pc, call) && th.pc.Do? && call.cell < |mem.cells|
    && (th.pc.stage.TryLoad? || th.pc.stage.TryCas? ==> call.CompareExchange? ==> th.pc.stage.p != call.expected)
    && (th.pc.stage.CellCas? ==> call.CompareExchange?)
  }

  lemma SwapOrRetry(s: State, t: nat, call: Act, spurious: bool)
    requires t < |s.threads| && AtWork(s.mem, s.threads[t], call) && s.threads[t].pc.stage.CellCas?
    ensures var s' := Step(s, t, Go(spurious));
      (Before(s'.threads[t].pc, call) && Quiet(s, s', t)) || Ends(s, s', t, call, call.expected)
  {
    var th := s.threads[t];
    assert Drop(call.expected) + ([ResetSlot] + th.todo) == Drop(call.expected) + [ResetSlot] + th.todo;
  }

  lemma AcquireOrRetry(s: State, t: nat, call: Act, spurious: bool)
    requires t < |s.threads| && AtWork(s.mem, s.threads[t], call) && s.threads[t].pc.stage.TryCas?
    ensures var s' := Step(s, t, Go(spurious));
      (Before(s'.threads[t].pc, call) && Quiet(s, s', t)) || Ends(s, s', t, call, s.threads[t].pc.stage.p)
  {
  }

  lemma ConfirmOrRetry(s: State, t: nat, call: Act, spurious: bool)
    requires t < |s.threads| && AtWork(s.mem, s.threads[t], call) && s.threads[t].pc.stage.ProtectCheck?
    ensures var s' := Step(s, t, Go(spurious));
      (Before(s'.threads[t].pc, call) && Quiet(s, s', t)) || Ends(s, s', t, call, NULL)
  {
    assert s.threads[t].held + Own(NULL) == s.threads[t].held;
  }

  lemma WorkGoesOn(s: State, t: nat, call: Act, spurious: bool)
    requires t < |s.threads| && AtWork(s.mem, s.threads[t], call)
    ensures var s' := Step(s, t, Go(spurious));
      (Before(s'.threads[t].pc, call) && Quiet(s, s', t)) || EndsSome(s, s', t, call)
  {
    match s.threads[t].pc.stage
    case CellCas => SwapOrRetry(s, t, call, spurious);
    case TryCas(_, _) => AcquireOrRetry(s, t, call, spurious);
    case ProtectCheck(_) => ConfirmOrRetry(s, t, call, spurious);
    case _ =>
  }

  /** One step of a thread inside a call that has not taken effect yet. */
  lemma CallGoesOn(s: State, t: nat, call: Act, spurious: bool)
    requires HazardSafety.Inv(s) && t < |s.threads| && !Idle(s.threads[t])
    requires Before(s.threads[t].pc, call)
    ensures var s' := Step(s, t, Go(spurious));
      (Before(s'.threads[t].pc, call) && Quiet(s, s', t)) || EndsSome(s, s', t, call)
  {
    assert HazardSafety.WellFormed(s.mem, s.threads[t]);
    if call.Store? {
      StoreGoesOn(s, t, call, spurious);
    } else if s.threads[t].pc.Do? {
      WorkGoesOn(s, t, call, spurious);
    }
  }

  lemma NextIsOwnOrOther(s: State, s': State, t: nat)
    requires Next(s, s') && t < |s.threads|
    ensures t < |s'.threads| == |s.threads|
    ensures TakesTurn(s, s', t) || Untouched(s.threads[t], s'.threads[t])
  {
    if u: nat, a :| u < |s.threads| && Enabled(s.mem, s.threads[u], a) && s' == Step(s, u, a) {
      if u == t { assert OwnTurn(s, s', t, a); }
    }
  }

  // ---------------------------------------------------------------------------------------------
  // Where a call has got to

  /** The call has not taken effect yet, up to `run[i]`, and none of its steps has changed a cell. */
  ghost predicate NotEnded(run: seq<State>, j: nat, i: nat, t: nat, call: Act) {
    && j < i < |run| && t < |run[i].threads|
    && (Before(run[i].threads[t].pc, call) || (Plain(call) && Leaving(run[i].threads[t].pc)))
    && Begins(run[j], run[j + 1], t, call) && QuietBut(run, j + 1, i, t, i)
  }

  /** The call has taken effect in the step from `run[w]`, and none of its other steps has changed a cell. */
  ghost predicate EndedAt(run: seq<State>, j: nat, i: nat, t: nat, call: Act, w: nat, p: Ptr) {
    && j < w < i < |run| && t < |run[i].threads|
    && Leaving(run[i].threads[t].pc) && (call.CompareExchange? ==> (run[i].threads[t].answer <==> p == call.expected))
    && Ends(run[w], run[w + 1], t, call, p)
    && Begins(run[j], run[j + 1], t, call) && QuietBut(run, j + 1, i, t, w)
  }

  /** What a step makes of a call that has not taken effect yet, and of one that is on its way back. */
  ghost predicate Proceeds(s: State, s': State, t: nat, call: Act) {
    && t < |s'.threads|
    && (|| (Before(s'.threads[t].pc, call) && OwnQuiet(s, s', t))
        || EndsSome(s, s', t, call))
  }

  ghost predicate GoesBack(s: State, s': State, t: nat)
    requires t < |s.threads|
  {
    && t < |s'.threads| && OwnQuiet(s, s', t)
    && Leaving(s'.threads[t].pc) && s'.threads[t].answer == s.threads[t].answer
  }

  ghost predicate Linked(s: State, s': State, t: nat, call: Act) {
    t < |s.threads| && !Idle(s.threads[t]) ==>
      && (Before(s.threads[t].pc, call) ==> Proceeds(s, s', t, call))
      && (Leaving(s.threads[t].pc) ==> GoesBack(s, s', t))
  }

  ghost predicate LinkedAt(run: seq<State>, k: int, t: nat, call: Act) {
    0 <= k && k + 1 < |run| ==> Linked(run[k], run[k + 1], t, call)
  }

  lemma CallStep(s: State, s': State, t: nat, call: Act)
    requires HazardSafety.Inv(s) && Next(s, s') && t < |s.threads| && !Idle(s.threads[t])
    requires Before(s.threads[t].pc, call)
    ensures Proceeds(s, s', t, call)
  {
    NextIsOwnOrOther(s, s', t);
    if a :| OwnTurn(s, s', t, a) { CallGoesOn(s, t, call, a.spurious); }
  }

  lemma LeavingStep(s: State, s': State, t: nat)
    requires Next(s, s') && t < |s.threads| && !Idle(s.threads[t]) && Leaving(s.threads[t].pc)
    ensures GoesBack(s, s', t)
  {
    NextIsOwnOrOther(s, s', t);
    if a :| OwnTurn(s, s', t, a) { LeavingStays(s.mem, s.threads[t], a.spurious); }
  }

  lemma RunLinked(run: seq<State>, i: nat, t: nat, call: Act)
    requires IsRun(Init, Next, run) && i + 1 < |run|
    ensures Linked(run[i], run[i + 1], t, call)
  {
    HazardSafety.RunKeepsInv(run, i);
    if t < |run[i].threads| && !Idle(run[i].threads[t]) {
      if Before(run[i].threads[t].pc, call) { CallStep(run[i], run[i + 1], t, call); }
      if Leaving(run[i].threads[t].pc) { LeavingStep(run[i], run[i + 1], t); }
    }
  }

  lemma StartsQuietly(s: State, s': State, t: nat, call: Act)
    requires Starts(s, s', t, call)
    ensures Begins(s, s', t, call)
    ensures Before(s'.threads[t].pc, call) || (Plain(call) && Leaving(s'.threads[t].pc))
  {
    CallBegins(s.mem, s.threads[t], call);
  }

  lemma EndsNow(run: seq<State>, j: nat, h: nat, i: nat, t: nat, call: Act) returns (p: Ptr)
    requires i == h + 1 < |run| && NotEnded(run, j, h, t, call) && EndsSome(run[h], run[i], t, call)
    ensures EndedAt(run, j, i, t, call, h, p)
  {
    p :| Ends(run[h], run[i], t, call, p);
    assert QuietBut(run, j + 1, i, t, h);
  }

  lemma GoesOnQuietly(run: seq<State>, j: nat, h: nat, i: nat, t: nat, call: Act)
    requires i == h + 1 < |run| && NotEnded(run, j, h, t, call) && OwnQuiet(run[h], run[i], t)
    requires t < |run[i].threads|
    requires Before(run[i].threads[t].pc, call) || (Plain(call) && Leaving(run[i].threads[t].pc))
    ensures NotEnded(run, j, i, t, call)
  {
    StillQuiet(run, j + 1, h, t, h);
  }

  lemma FirstPart(run: seq<State>, j: nat, h: nat, i: nat, t: nat, call: Act) returns (p: Ptr)
    requires i == h + 1 < |run| && NotEnded(run, j, h, t, call) && !Idle(run[h].threads[t])
    requires Linked(run[h], run[i], t, call)
    ensures NotEnded(run, j, i, t, call) || EndedAt(run, j, i, t, call, h, p)
    ensures !OwnQuiet(run[h], run[i], t) ==> EndedAt(run, j, i, t, call, h, p)
  {
    p := NULL;
    if EndsSome(run[h], run[i], t, call) {
      p := EndsNow(run, j, h, i, t, call);
    } else {
      GoesOnQuietly(run, j, h, i, t, call);
    }
  }

  lemma LastPart(run: seq<State>, j: nat, h: nat, i: nat, t: nat, call: Act, w: nat, p: Ptr)
    requires i == h + 1 < |run| && EndedAt(run, j, h, t, call, w, p) && GoesBack(run[h], run[i], t)
    ensures EndedAt(run, j, i, t, call, w, p)
  {
    StillQuiet(run, j + 1, h, t, w);
  }

  lemma OneMore(run: seq<State>, j: nat, h: nat, i: nat, t: nat, call: Act, w: nat, p: Ptr) returns (w': nat, p': Ptr)
    requires i == h + 1 < |run| && Linked(run[h], run[i], t, call)
    requires t < |run[h].threads| && !Idle(run[h].threads[t])
    requires NotEnded(run, j, h, t, call) || EndedAt(run, j, h, t, call, w, p)
    ensures NotEnded(run, j, i, t, call) || EndedAt(run, j, i, t, call, w', p')
  {
    if NotEnded(run, j, h, t, call) {
      w' := h;
      p' := FirstPart(run, j, h, i, t, call);
    } else {
      w', p' := w, p;
      LastPart(run, j, h, i, t, call, w, p);
    }
  }

  lemma NotEndedYet(run: seq<State>, j: nat, t: nat, call: Act)
    requires j + 1 < |run| && Starts(run[j], run[j + 1], t, call)
    ensures NotEnded(run, j, j + 1, t, call)
  {
    StartsQuietly(run[j], run[j + 1], t, call);
  }

  /** Up to any moment, a call has not taken effect, or has done so once. */
  lemma {:induction false} Along(run: seq<State>, j: nat, i: nat, t: nat, call: Act) returns (w: nat, p: Ptr)
    requires forall k :: LinkedAt(run, k, t, call)
    requires Span(run, j, i, t, call)
    ensures NotEnded(run, j, i, t, call) || EndedAt(run, j, i, t, call, w, p)
  {
    if i == j + 1 {
      NotEndedYet(run, j, t, call);
      w, p := 0, NULL;
    } else {
      assert LinkedAt(run, i - 1, t, call);
      w, p := Along(run, j, i - 1, t, call);
      w, p := OneMore(run, j, i - 1, i, t, call, w, p);
    }
  }

  lemma AllLinked(run: seq<State>, t: nat, call: Act)
    requires IsRun(Init, Next, run)
    ensures forall k :: LinkedAt(run, k, t, call)
  {
    forall k ensures LinkedAt(run, k, t, call) {
      if 0 <= k && k + 1 < |run| { RunLinked(run, k, t, call); }
    }
  }

  lemma CallStatus(run: seq<State>, j: nat, i: nat, t: nat, call: Act) returns (w: nat, p: Ptr)
    requires IsRun(Init, Next, run) && Span(run, j, i, t, call)
    ensures NotEnded(run, j, i, t, call) || EndedAt(run, j, i, t, call, w, p)
  {
    AllLinked(run, t, call);
    w, p := Along(run, j, i, t, call);
  }

  // ---------------------------------------------------------------------------------------------
  // Results

  /** A `Store(c, n)` that is over has stored exactly once: in the step from `run[w]`, inside the call, it has put
      `n` into the cell and set out to drop the reference to `p`, which the cell held just before; none of its
      other steps changes a cell. */
  lemma StoreStoresOnce(run: seq<State>, j: nat, i: nat, t: nat, c: nat, n: Ptr) returns (w: nat, p: Ptr)
    requires IsRun(Init, Next, run) && Span(run, j, i, t, Store(c, n)) && Idle(run[i].threads[t])
    ensures EndedAt(run, j, i, t, Store(c, n), w, p)
  {
    w, p := CallStatus(run, j, i, t, Store(c, n));
  }

  /** Inside the call `call` of `run[j]`, the cell held `p` at the moment `k`, no later than `w`. */
  ghost predicate WasInCell(run: seq<State>, j: nat, k: nat, w: nat, t: nat, call: Act, p: Ptr)
    requires call.Load? || call.CompareExchange?
  {
    && j < k <= w < |run| && call.cell < |run[k].mem.cells| && run[k].mem.cells[call.cell] == p
    && (p != NULL ==> forall l :: k <= l <= w ==> p in run[l].mem.heap)
  }

  /** A `Load` that is over has handed its caller, once, a pointer that was in its cell at a moment inside the
      call, to an object alive from then on; a `CompareExchangeWeak` too, and it has written, once, exactly if
      that is the expected pointer, which is what its answer says. */
  lemma CallAnswersOnce(run: seq<State>, j: nat, i: nat, t: nat, call: Act) returns (w: nat, p: Ptr, k: nat)
    requires call.Load? || call.CompareExchange?
    requires IsRun(Init, Next, run) && Span(run, j, i, t, call) && Idle(run[i].threads[t])
    ensures EndedAt(run, j, i, t, call, w, p) && WasInCell(run, j, k, w, t, call, p)
    ensures call.CompareExchange? && p == call.expected ==> k == w
  {
    w, p := CallStatus(run, j, i, t, call);
    k := AnswerAt(run, j, w, t, call, p);
  }

  lemma AnswerAt(run: seq<State>, j: nat, w: nat, t: nat, call: Act, p: Ptr) returns (k: nat)
    requires IsRun(Init, Next, run) && j < w && w + 1 < |run| && (call.Load? || call.CompareExchange?)
    requires t < |run[j].threads| && Idle(run[j].threads[t]) && Ends(run[w], run[w + 1], t, call, p)
    ensures WasInCell(run, j, k, w, t, call, p)
    ensures call.CompareExchange? && p == call.expected ==> k == w
  {
    NextIsOwnOrOther(run[w], run[w + 1], t);
    var a :| OwnTurn(run[w], run[w + 1], t, a);
    var q;
    k, q := HazardAnswers.AnswerWasInCell(run, w, t, a.spurious);
    OwnIsInjective(run[w].threads[t].held, p, q);
    assert HazardAnswers.HeldSince(run, k, w, t, run[w].threads[t].pc.job, q);
    assert !run[j].threads[t].pc.Do?;
  }

  lemma OwnIsInjective(held: multiset<Ptr>, p: Ptr, q: Ptr)
    requires held + Own(p) == held + Own(q)
    ensures p == q
  {
    assert (held + Own(p))[p] == (held + Own(q))[p] && (held + Own(p))[q] == (held + Own(q))[q];
  }

  ghost predicate StartsSome(s: State, s': State, t: nat) { exists call :: Starts(s, s', t, call) }

  /** Who is busy after a step was busy before it, or starts a call in it. */
  ghost predicate BusyFrom(s: State, s': State, t: nat) {
    t < |s'.threads| && !Idle(s'.threads[t]) ==>
      t < |s.threads| && (!Idle(s.threads[t]) || StartsSome(s, s', t))
  }

  ghost predicate BusyFromAt(run: seq<State>, k: int, t: nat) {
    0 <= k && k + 1 < |run| ==> BusyFrom(run[k], run[k + 1], t)
  }

  lemma BusyStep(s: State, s': State, t: nat)
    requires Next(s, s')
    ensures BusyFrom(s, s', t)
  {
    if t < |s'.threads| && !Idle(s'.threads[t]) {
      assert |s'.threads| == |s.threads|;
      NextIsOwnOrOther(s, s', t);
      if a :| OwnTurn(s, s', t, a) {
        if Idle(s.threads[t]) { assert Starts(s, s', t, a); }
      }
    }
  }

  lemma {:induction false} CallAlong(run: seq<State>, i: nat, t: nat) returns (j: nat, call: Act)
    requires forall k :: BusyFromAt(run, k, t)
    requires |run| > 0 && (t < |run[0].threads| ==> Idle(run[0].threads[t]))
    requires i < |run| && t < |run[i].threads| && !Idle(run[i].threads[t])
    ensures Span(run, j, i, t, call)
  {
    assert BusyFromAt(run, i - 1, t);
    if Idle(run[i - 1].threads[t]) {
      j := i - 1;
      call :| Starts(run[j], run[i], t, call);
    } else {
      j, call := CallAlong(run, i - 1, t);
    }
  }

  /** Who is busy is inside a call. */
  lemma CallOf(run: seq<State>, i: nat, t: nat) returns (j: nat, call: Act)
    requires IsRun(Init, Next, run) && i < |run| && t < |run[i].threads| && !Idle(run[i].threads[t])
    ensures Span(run, j, i, t, call)
  {
    forall k ensures BusyFromAt(run, k, t) {
      if 0 <= k && k + 1 < |run| { BusyStep(run[k], run[k + 1], t); }
    }
    if t < |run[0].threads| { NotBusyAtFirst(run, t); }
    j, call := CallAlong(run, i, t);
  }

  lemma NotBusyAtFirst(run: seq<State>, t: nat)
    requires IsRun(Init, Next, run) && t < |run[0].threads|
    ensures Idle(run[0].threads[t])
  {
  }

  /** Over all runs a cell changes only by the one write of a `Store` or of a `CompareExchangeWeak` that answers
      true, with the arguments of that very call. */
  lemma OnlyCallsWrite(run: seq<State>, i: nat) returns (t: nat, j: nat, call: Act, p: Ptr)
    requires IsRun(Init, Next, run) && i + 1 < |run| && run[i + 1].mem.cells != run[i].mem.cells
    ensures Span(run, j, i + 1, t, call) && EndedAt(run, j, i + 1, t, call, i, p)
    ensures call.Store? || (call.CompareExchange? && p == call.expected)
  {
    t := WhoWrites(run[i], run[i + 1]);
    if Idle(run[i].threads[t]) {
      QuietWhenIdle(run[i], run[i + 1], t);
    } else {
      j, call := CallOf(run, i, t);
      WritesOnTheWay(run, j, i, t, call);
      p := EndsHere(run, j, i, t, call);
    }
  }

  lemma WhoWrites(s: State, s': State) returns (t: nat)
    requires Next(s, s') && s'.mem.cells != s.mem.cells
    ensures t < |s.threads| && TakesTurn(s, s', t)
  {
    var u: nat, a :| u < |s.threads| && Enabled(s.mem, s.threads[u], a) && s' == Step(s, u, a);
    assert OwnTurn(s, s', u, a);
    t := u;
  }

  lemma QuietWhenIdle(s: State, s': State, t: nat)
    requires t < |s.threads| && TakesTurn(s, s', t) && Idle(s.threads[t])
    ensures s'.mem.cells == s.mem.cells
  {
    var a :| OwnTurn(s, s', t, a);
    CallBegins(s.mem, s.threads[t], a);
  }

  /** Inside a call, a thread that changes a cell has not been on its way back. */
  lemma WritesOnTheWay(run: seq<State>, j: nat, i: nat, t: nat, call: Act)
    requires IsRun(Init, Next, run) && Span(run, j, i, t, call) && i + 1 < |run| && !Idle(run[i].threads[t])
    requires TakesTurn(run[i], run[i + 1], t) && run[i + 1].mem.cells != run[i].mem.cells
    ensures NotEnded(run, j, i, t, call) && Linked(run[i], run[i + 1], t, call) && !OwnQuiet(run[i], run[i + 1], t)
  {
    var w, p := CallStatus(run, j, i, t, call);
    RunLinked(run, i, t, call);
    NotOnTheWayBack(run[i], run[i + 1], t, call);
  }

  lemma EndsHere(run: seq<State>, j: nat, i: nat, t: nat, call: Act) returns (p: Ptr)
    requires Span(run, j, i, t, call) && i + 1 < |run| && !Idle(run[i].threads[t])
    requires NotEnded(run, j, i, t, call) && Linked(run[i], run[i + 1], t, call) && !OwnQuiet(run[i], run[i + 1], t)
    requires run[i + 1].mem.cells != run[i].mem.cells
    ensures Span(run, j, i + 1, t, call) && EndedAt(run, j, i + 1, t, call, i, p)
    ensures call.Store? || (call.CompareExchange? && p == call.expected)
  {
    p := FirstPart(run, j, i, i + 1, t, call);
    WritersEnd(run[i], run[i + 1], t, call, p);
  }

  lemma NotOnTheWayBack(s: State, s': State, t: nat, call: Act)
    requires t < |s.threads| && !Idle(s.threads[t]) && Linked(s, s', t, call)
    requires TakesTurn(s, s', t) && s'.mem.cells != s.mem.cells
    ensures !Leaving(s.threads[t].pc) && !OwnQuiet(s, s', t)
  {
    var a :| OwnTurn(s, s', t, a);
  }

  lemma WritersEnd(s: State, s': State, t: nat, call: Act, p: Ptr)
    requires Ends(s, s', t, call, p) && s'.mem.cells != s.mem.cells
    ensures call.Store? || (call.CompareExchange? && p == call.expected)
  {
  }

  // ---------------------------------------------------------------------------------------------
  // What a collection keeps

  predicate SomeSlotHolds(mem: Memory, p: Ptr) {
    exists m, k :: 0 <= m < |mem.mutators| && 0 <= k < |mem.mutators[m].slots| && mem.mutators[m].slots[k] == p
  }

  predicate Keeps(th: Thread, x: nat, p: Ptr) { th.pc.Collect? && x < |th.pc.kept| && th.pc.kept[x] == p }

  lemma JobKeepsNothing(mem: Memory, th: Thread, spurious: bool, x: nat, p: Ptr)
    requires th.pc.Do?
    ensures !Keeps(ExecJob(mem, th, th.pc.job, th.pc.stage, spurious).th, x, p)
  {
  }

  lemma KeepStep(mem: Memory, th: Thread, a: Act, x: nat, p: Ptr)
    requires Enabled(mem, th, a) && Keeps(Exec(mem, th, a).th, x, p)
    ensures Keeps(th, x, p) || (th.pc.Collect? && SomeSlotHolds(mem, p))
  {
    if a.Go? && th.pc.Do? { JobKeepsNothing(mem, th, a.spurious, x, p); }
  }

  /** `p` was in a registered slot in `run[k]`, and the thread has been in this collection since. */
  ghost predicate SeenSince(run: seq<State>, k: nat, i: nat, t: nat, p: Ptr) {
    && k <= i < |run| && SomeSlotHolds(run[k].mem, p)
    && forall l :: k <= l <= i ==> t < |run[l].threads| && run[l].threads[t].pc.Collect?
  }

  ghost predicate KeptFrom(s: State, s': State, t: nat, x: nat, p: Ptr) {
    t < |s'.threads| && Keeps(s'.threads[t], x, p) ==>
      && t < |s.threads| && s.threads[t].pc.Collect?
      && (Keeps(s.threads[t], x, p) || SomeSlotHolds(s.mem, p))
  }

  ghost predicate KeptFromAt(run: seq<State>, k: int, t: nat, x: nat, p: Ptr) {
    0 <= k && k + 1 < |run| ==> KeptFrom(run[k], run[k + 1], t, x, p)
  }

  lemma NextKeeps(s: State, s': State, t: nat, x: nat, p: Ptr)
    requires Next(s, s')
    ensures KeptFrom(s, s', t, x, p)
  {
    if t < |s'.threads| && Keeps(s'.threads[t], x, p) {
      assert |s'.threads| == |s.threads|;
      NextIsOwnOrOther(s, s', t);
      if a :| OwnTurn(s, s', t, a) { KeepStep(s.mem, s.threads[t], a, x, p); }
    }
  }

  lemma {:induction false} SeenAlong(run: seq<State>, i: nat, t: nat, x: nat, p: Ptr) returns (k: nat)
    requires forall k :: KeptFromAt(run, k, t, x, p)
    requires |run| > 0 && (t < |run[0].threads| ==> Idle(run[0].threads[t]))
    requires i < |run| && t < |run[i].threads| && Keeps(run[i].threads[t], x, p)
    ensures SeenSince(run, k, i, t, p)
  {
    assert KeptFromAt(run, i - 1, t, x, p);
    if Keeps(run[i - 1].threads[t], x, p) {
      k := SeenAlong(run, i - 1, t, x, p);
    } else {
      k := i - 1;
    }
  }

  /** A `Gc` keeps only what it has seen in a slot of a registered mutator, in this very collection. */
  lemma KeptWasSeen(run: seq<State>, i: nat, t: nat, x: nat) returns (k: nat)
    requires IsRun(Init, Next, run) && i < |run| && t < |run[i].threads|
    requires run[i].threads[t].pc.Collect? && x < |run[i].threads[t].pc.kept|
    ensures SeenSince(run, k, i, t, run[i].threads[t].pc.kept[x])
  {
    var p := run[i].threads[t].pc.kept[x];
    forall k ensures KeptFromAt(run, k, t, x, p) {
      if 0 <= k && k + 1 < |run| { NextKeeps(run[k], run[k + 1], t, x, p); }
    }
    if t < |run[0].threads| { NotBusyAtFirst(run, t); }
    k := SeenAlong(run, i, t, x, p);
  }
}
