/**
 The three-state futex mutex, as a transition system over any number of threads. Each CAS, exchange,
 compare-and-sleep and wake is one step; sleeping may end spuriously.
 */
module ThreadMutex {
  import opened Runs

  const UNLOCKED: nat := 0
  const LOCKED: nat := 1
  const WAITING: nat := 2

  /** Where a thread is in `Lock` and `Unlock`. */
  datatype Pc =
    | Outside
    | Cas          // before the first compare-and-exchange
    | Exchange     // before `exchange(Waiting)`
    | FutexWait    // before the compare-and-sleep
    | Sleeping
    | Holding
    | Unlocking    // before `exchange(Unlocked)`
    | WakingOne    // owes a `WakeOne`

  datatype State = State(word: nat, threads: seq<Pc>)

  /** `wakes` is the sleeping thread that `WakeOne` wakes, if any is. */
  datatype Act = Call | Go(wakes: nat) | Spurious

  ghost predicate Init(s: State) {
    s.word == UNLOCKED && forall t :: 0 <= t < |s.threads| ==> s.threads[t].Outside?
  }

  ghost predicate NobodySleeps(s: State) { forall t :: 0 <= t < |s.threads| ==> !s.threads[t].Sleeping? }

  ghost predicate Enabled(s: State, t: nat, a: Act) {
    && t < |s.threads|
    && match a
       case Call => s.threads[t].Outside? || s.threads[t].Holding?
       case Spurious => s.threads[t].Sleeping?
       case Go(wakes) =>
         && !s.threads[t].Outside? && !s.threads[t].Holding? && !s.threads[t].Sleeping?
         && (s.threads[t].WakingOne? ==> NobodySleeps(s) || (wakes < |s.threads| && s.threads[wakes].Sleeping?))
  }

  function At(s: State, t: nat, word: nat, pc: Pc): State
    requires t < |s.threads|
  {
    State(word, s.threads[t := pc])
  }

  ghost function Step(s: State, t: nat, a: Act): State
    requires Enabled(s, t, a)
  {
    match a
    case Call => At(s, t, s.word, if s.threads[t].Outside? then Cas else Unlocking)
    case Spurious => At(s, t, s.word, Exchange)
    case Go(wakes) =>
      match s.threads[t]
      case Cas => if s.word == UNLOCKED then At(s, t, LOCKED, Holding) else At(s, t, s.word, Exchange)
      case Exchange => At(s, t, WAITING, if s.word == UNLOCKED then Holding else FutexWait)
      case FutexWait => At(s, t, s.word, if s.word == WAITING then Sleeping else Exchange)
      case Unlocking => At(s, t, UNLOCKED, if s.word == WAITING then WakingOne else Outside)
      case WakingOne =>
        if NobodySleeps(s) then At(s, t, s.word, Outside) else At(At(s, t, s.word, Outside), wakes, s.word, Exchange)
      case _ => s
  }

  ghost predicate Next(s: State, s': State) { exists t, a :: Enabled(s, t, a) && s' == Step(s, t, a) }

  // ---------------------------------------------------------------------------------------------
  // The invariant

  predicate Holds(pc: Pc) { pc.Holding? || pc.Unlocking? }

  /** The word is free exactly if nobody holds the lock, and at most one thread does. */
  ghost predicate Exclusive(s: State) {
    && s.word <= WAITING
    && (s.word == UNLOCKED <==> forall t :: 0 <= t < |s.threads| ==> !Holds(s.threads[t]))
    && (forall t, u :: 0 <= t < u < |s.threads| ==> !(Holds(s.threads[t]) && Holds(s.threads[u])))
  }

  ghost predicate Someone(s: State, pc: Pc) { exists t :: 0 <= t < |s.threads| && s.threads[t] == pc }

  /** A sleeper is woken by the holder, who sees `Waiting`, by an unlocker who still owes the wake, or
      by the holder after a thread that is about to write `Waiting`. */
  ghost predicate NobodyStranded(s: State) {
    Someone(s, Sleeping) ==> s.word == WAITING || Someone(s, WakingOne) || Someone(s, Exchange)
  }

  ghost predicate Inv(s: State) { Exclusive(s) && NobodyStranded(s) }

  lemma ExclusiveKept(s: State, t: nat, a: Act)
    requires Exclusive(s) && Enabled(s, t, a)
    ensures Exclusive(Step(s, t, a))
  {
    var s' := Step(s, t, a);
    assert forall u :: 0 <= u < |s.threads| && u != t ==> Holds(s'.threads[u]) == Holds(s.threads[u]);
    if Holds(s.threads[t]) { assert s.word != UNLOCKED; }
    if Holds(s'.threads[t]) { assert s'.word != UNLOCKED; }
  }

  /** Witnesses other than the stepping thread stay. */
  lemma StrandedKept(s: State, t: nat, a: Act)
    requires NobodyStranded(s) && Enabled(s, t, a)
    ensures NobodyStranded(Step(s, t, a))
  {
    var s' := Step(s, t, a);
    if Someone(s', Sleeping) && s'.word != WAITING {
      var z :| 0 <= z < |s'.threads| && s'.threads[z] == Sleeping;
      assert s'.threads[t] == Exchange || s'.threads[t] == WakingOne || s.threads[z] == Sleeping;
      if s.threads[t].WakingOne? && a.Go? {
        assert !NobodySleeps(s) && s'.threads[a.wakes] == Exchange;
      } else if s'.threads[t] != Exchange && s'.threads[t] != WakingOne {
        assert Someone(s, Sleeping);
        if Someone(s, WakingOne) {
          var w :| 0 <= w < |s.threads| && s.threads[w] == WakingOne;
          assert s'.threads[w] == WakingOne;
        } else {
          var w :| 0 <= w < |s.threads| && s.threads[w] == Exchange;
          assert s'.threads[w] == Exchange;
        }
      }
    }
  }

  lemma RunKeepsInv(run: seq<State>, i: nat)
    requires IsRun(Init, Next, run) && i < |run|
    ensures Inv(run[i])
  {
    forall s, s' | Inv(s) && Next(s, s') ensures Inv(s') {
      var t, a :| Enabled(s, t, a) && s' == Step(s, t, a);
      ExclusiveKept(s, t, a);
      StrandedKept(s, t, a);
    }
    Invariance(Init, Next, Inv, run);
  }

  // ---------------------------------------------------------------------------------------------
  // Results

  /** At most one thread is past `Lock` without having unlocked, and the word says whether one is. */
  lemma MutualExclusion(run: seq<State>, i: nat, t: nat, u: nat)
    requires IsRun(Init, Next, run) && i < |run| && t < |run[i].threads| && u < |run[i].threads|
    requires Holds(run[i].threads[t])
    ensures run[i].word != UNLOCKED && (Holds(run[i].threads[u]) ==> u == t)
  {
    RunKeepsInv(run, i);
  }

  /** If nobody holds the lock, the word is free. */
  lemma FreeWhenUnheld(run: seq<State>, i: nat)
    requires IsRun(Init, Next, run) && i < |run|
    requires forall t :: 0 <= t < |run[i].threads| ==> !Holds(run[i].threads[t])
    ensures run[i].word == UNLOCKED
  {
    RunKeepsInv(run, i);
  }

  /** Whenever a thread sleeps, somebody is going to wake one: the lock is held with the word at
      `Waiting`, so that the holder's `Unlock` will owe a wake, or a wake is owed, or a thread is about
      to take the lock or to write `Waiting`. */
  lemma NoStrandedSleeper(run: seq<State>, i: nat, t: nat)
    requires IsRun(Init, Next, run) && i < |run| && t < |run[i].threads| && run[i].threads[t].Sleeping?
    ensures var s := run[i];
      || (s.word == WAITING && exists h :: 0 <= h < |s.threads| && Holds(s.threads[h]))
      || Someone(s, WakingOne) || Someone(s, Exchange)
  {
    RunKeepsInv(run, i);
    assert Someone(run[i], Sleeping);
  }

  // ---------------------------------------------------------------------------------------------
  // Whole calls

  predicate InLock(pc: Pc) { pc.Cas? || pc.Exchange? || pc.FutexWait? || pc.Sleeping? }

  predicate InUnlock(pc: Pc) { pc.Unlocking? || pc.WakingOne? }

  /** A `Lock` goes on until its thread holds the mutex, and an `Unlock` until its thread is outside. */
  predicate CallGoesOn(pc: Pc, pc': Pc) {
    && (InLock(pc) ==> InLock(pc') || pc'.Holding?)
    && (InUnlock(pc) ==> InUnlock(pc') || pc'.Outside?)
    && (pc.Outside? ==> pc'.Outside? || pc'.Cas?)
    && (pc.Holding? ==> pc'.Holding? || pc'.Unlocking?)
  }

  lemma StepGoesOn(s: State, t: nat, a: Act, u: nat)
    requires Enabled(s, t, a) && u < |s.threads|
    ensures CallGoesOn(s.threads[u], Step(s, t, a).threads[u])
  {
  }

  ghost predicate CallGoesOnAt(run: seq<State>, k: int, t: nat) {
    0 <= k && k + 1 < |run| && t < |run[k].threads| ==>
      t < |run[k + 1].threads| && CallGoesOn(run[k].threads[t], run[k + 1].threads[t])
  }

  lemma {:induction false} LockAlong(run: seq<State>, j: nat, i: nat, t: nat)
    requires forall k :: CallGoesOnAt(run, k, t)
    requires j <= i < |run| && t < |run[j].threads| && InLock(run[j].threads[t])
    requires forall k :: j <= k < i ==> t < |run[k].threads| && !run[k].threads[t].Holding?
    ensures t < |run[i].threads| && (InLock(run[i].threads[t]) || run[i].threads[t].Holding?)
  {
    if j < i {
      LockAlong(run, j, i - 1, t);
      assert CallGoesOnAt(run, i - 1, t);
    }
  }

  /** A thread that has called `Lock` does not come back before it holds the mutex. */
  lemma LockEndsHolding(run: seq<State>, j: nat, i: nat, t: nat)
    requires IsRun(Init, Next, run) && j <= i < |run| && t < |run[j].threads| && InLock(run[j].threads[t])
    requires forall k :: j <= k < i ==> t < |run[k].threads| && !run[k].threads[t].Holding?
    ensures t < |run[i].threads| && (InLock(run[i].threads[t]) || run[i].threads[t].Holding?)
  {
    forall k ensures CallGoesOnAt(run, k, t) {
      if 0 <= k && k + 1 < |run| && t < |run[k].threads| {
        var u, a :| Enabled(run[k], u, a) && run[k + 1] == Step(run[k], u, a);
        StepGoesOn(run[k], u, a, t);
      }
    }
    LockAlong(run, j, i, t);
  }

  /** Steps that a thread has still to take, as long as nobody holds the mutex. */
  function ToGo(pc: Pc): nat {
    match pc
    case FutexWait => 2
    case Cas => 1
    case Exchange => 1
    case Unlocking => 2
    case WakingOne => 1
    case _ => 0
  }

  /** A thread inside `Lock` that is left alone takes the mutex if nobody holds it; a thread inside `Unlock` that
      is left alone comes back. */
  lemma LeftAloneEnds(run: seq<State>, i: nat, t: nat, wakes: nat)
    requires IsRun(Init, Next, run) && i < |run| && Enabled(run[i], t, Go(wakes))
    requires InLock(run[i].threads[t]) ==> forall u :: 0 <= u < |run[i].threads| ==> !Holds(run[i].threads[u])
    ensures ToGo(Step(run[i], t, Go(wakes)).threads[t]) < ToGo(run[i].threads[t])
  {
    RunKeepsInv(run, i);
  }
}
