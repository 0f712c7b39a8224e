/**
 Order in the work-stealing scheduler, over all runs of `SchedulerMachine`: its queues are first in, first out,
 a worker turns away only from an empty queue, and a task in a local queue leaves it after a bounded number of
 picks.
 */
module SchedulerOrder {
  import opened Common
  import opened Counting
  import opened Runs
  import opened SchedulerFairness
  import opened SchedulerMachine

  // ---------------------------------------------------------------------------------------------
  // First in, first out

  /** `added` has come in at the back and `gone` elements have left at the front. */
  ghost predicate Moved<T>(q: seq<T>, q': seq<T>, added: seq<T>, gone: nat) {
    gone <= |q| + |added| && q' == (q + added)[gone..]
  }

  lemma MovedTwice<T>(q: seq<T>, q1: seq<T>, q2: seq<T>, added: seq<T>, gone: nat, added': seq<T>, gone': nat)
    requires Moved(q, q1, added, gone) && Moved(q1, q2, added', gone')
    ensures Moved(q, q2, added + added', gone + gone')
  {
    assert (q + (added + added'))[gone..] == (q + added)[gone..] + added';
    assert (q + (added + added'))[gone + gone'..] == (q + (added + added'))[gone..][gone'..];
  }

  /** Of the tasks that were there, the first `gone` have left and the others are where they were. */
  lemma FirstLeave<T>(q: seq<T>, q': seq<T>, added: seq<T>, gone: nat, p: nat)
    requires Moved(q, q', added, gone) && gone <= p < |q|
    ensures p - gone < |q'| && q'[p - gone] == q[p]
  {
  }

  lemma OwnStepMovesLocal(s: State, i: nat, a: Act) returns (added: seq<Task>, gone: nat)
    requires i < |s.workers|
    ensures var w, w' := s.workers[i], WorkerStep(s, i, a).workers[i];
      && Moved(w.local, w'.local, added, gone)
      && (added == [] || (w.pc.PushLocal? && added == [w.pc.task]))
      && (PickedFrom(FromLocal, w, w') ==> gone == 1)
  {
    var w := s.workers[i];
    added, gone := [], 0;
    if a.Go? && w.pc.PushLocal? && |w.local| < s.shared.capacity { added := [w.pc.task]; }
    if a.Go? && w.pc.OffloadGrab? { gone := Min(GrabAmount(s.shared.capacity) - 1, |w.local|); }
    if a.Go? && w.pc.GetLocal? && w.local != [] { gone := 1; }
    OwnLocal(s.shared, i, w, |s.workers|, a);
  }

  /** What a worker's own step does to its local queue. */
  lemma OwnLocal(sh: Shared, i: nat, w: Worker, workers: nat, a: Act)
    ensures var w' := Exec(sh, i, w, workers, a).worker;
      if a.Go? && w.pc.PushLocal? && |w.local| < sh.capacity then w'.local == w.local + [w.pc.task]
      else if a.Go? && w.pc.OffloadGrab? then w'.local == w.local[Min(GrabAmount(sh.capacity) - 1, |w.local|)..]
      else if a.Go? && w.pc.GetLocal? && w.local != [] then w'.local == w.local[1..]
      else w'.local == w.local && !PickedFrom(FromLocal, w, w')
  {
    if a.Go? && Picking(w.pc) { PickLocal(sh, i, w, workers); }
  }

  lemma PickLocal(sh: Shared, i: nat, w: Worker, workers: nat)
    requires Picking(w.pc)
    ensures var w' := ExecPick(sh, i, w, workers).worker;
      if w.pc.GetLocal? && w.local != [] then w'.local == w.local[1..]
      else w'.local == w.local && !PickedFrom(FromLocal, w, w')
  {
  }

  lemma OtherStepMovesLocal(s: State, i: nat, a: Act, w: nat) returns (gone: nat)
    requires i < |s.workers| && w < |s.workers| && w != i
    ensures Moved(s.workers[w].local, WorkerStep(s, i, a).workers[w].local, [], gone)
  {
    gone := if a.StealSome? && Stealing(s, i, a.take) && s.workers[i].pc.victim == w then a.take else 0;
  }

  lemma OutsiderLeavesLocal(s: State, j: nat, a: Act, w: nat)
    requires j < |s.outsiders| && w < |s.workers|
    ensures var v, v' := s.workers[w], OutsiderStep(s, j, a).workers[w];
      Moved(v.local, v'.local, [], 0) && !PickedFrom(FromLocal, v, v')
  {
    OutsiderStepFair(s, j, a, w);
  }

  lemma WorkerMovesLocal(s: State, i: nat, a: Act, w: nat) returns (added: seq<Task>, gone: nat)
    requires i < |s.workers| && w < |s.workers|
    ensures var v, v' := s.workers[w], WorkerStep(s, i, a).workers[w];
      && Moved(v.local, v'.local, added, gone)
      && (added == [] || (v.pc.PushLocal? && added == [v.pc.task]))
      && (PickedFrom(FromLocal, v, v') ==> gone == 1)
  {
    if i == w {
      added, gone := OwnStepMovesLocal(s, i, a);
    } else {
      added := [];
      gone := OtherStepMovesLocal(s, i, a, w);
      OtherStepFair(s, i, a, w);
    }
  }

  /** Local queues are first in, first out, whoever moves: a worker appends the task it is pushing, and the
      worker, an overflow or a thief take from the front. */
  lemma LocalIsFifo(s: State, s': State, w: nat) returns (added: seq<Task>, gone: nat)
    requires Next(s, s') && w < |s.workers|
    ensures w < |s'.workers| && Moved(s.workers[w].local, s'.workers[w].local, added, gone)
    ensures added == [] || (s.workers[w].pc.PushLocal? && added == [s.workers[w].pc.task])
    ensures PickedFrom(FromLocal, s.workers[w], s'.workers[w]) ==> gone == 1
  {
    if i: nat, a :| i < |s.workers| && s' == WorkerStep(s, i, a) {
      added, gone := WorkerMovesLocal(s, i, a, w);
    } else {
      var j: nat, a :| j < |s.outsiders| && s' == OutsiderStep(s, j, a);
      added, gone := [], 0;
      OutsiderLeavesLocal(s, j, a, w);
    }
  }

  /** What one step does to the global queue: a batch leaves at the front for a worker that keeps its order,
      or what a thread pushes comes in at the back. */
  ghost predicate GlobalStep(q: seq<Entry>, q': seq<Entry>, sh: Shared) {
    || q' == q
    || (q != [] && q' == q[Min(GrabAmount(sh.capacity), |q|)..])
    || q <= q'
  }

  lemma ExecGlobal(sh: Shared, i: nat, w: Worker, workers: nat, a: Act)
    ensures GlobalStep(sh.global, Exec(sh, i, w, workers, a).shared.global, sh)
  {
    if a.Go? && Picking(w.pc) { PickGlobal(sh, i, w, workers); }
  }

  lemma PickGlobal(sh: Shared, i: nat, w: Worker, workers: nat)
    requires Picking(w.pc)
    ensures var q, e := sh.global, ExecPick(sh, i, w, workers);
      var got := Min(GrabAmount(sh.capacity), |q|);
      if (w.pc.Poll? || w.pc.GetGlobal?) && got > 0 then
        && e.shared.global == q[got..]
        && e.worker.pc.Spread? && [e.worker.pc.next] + e.worker.pc.rest == Tasks(q[..got])
      else e.shared.global == q
  {
  }

  lemma WorkerMovesGlobal(s: State, i: nat, a: Act)
    requires i < |s.workers|
    ensures GlobalStep(s.shared.global, WorkerStep(s, i, a).shared.global, s.shared)
  {
    ExecGlobal(s.shared, i, s.workers[i], |s.workers|, a);
  }

  lemma OutsiderMovesGlobal(s: State, j: nat, a: Act)
    requires j < |s.outsiders|
    ensures GlobalStep(s.shared.global, OutsiderStep(s, j, a).shared.global, s.shared)
  {
  }

  /** The global queue is first in, first out as well. */
  lemma GlobalIsFifo(s: State, s': State) returns (added: seq<Entry>, gone: nat)
    requires Next(s, s')
    ensures Moved(s.shared.global, s'.shared.global, added, gone)
  {
    if i: nat, a :| i < |s.workers| && s' == WorkerStep(s, i, a) {
      WorkerMovesGlobal(s, i, a);
    } else {
      var j: nat, a :| j < |s.outsiders| && s' == OutsiderStep(s, j, a);
      OutsiderMovesGlobal(s, j, a);
    }
    added, gone := MovedBy(s.shared.global, s'.shared.global, s.shared);
  }

  lemma MovedBy(q: seq<Entry>, q': seq<Entry>, sh: Shared) returns (added: seq<Entry>, gone: nat)
    requires GlobalStep(q, q', sh)
    ensures Moved(q, q', added, gone)
  {
    if q <= q' {
      added, gone := q'[|q|..], 0;
    } else {
      added, gone := [], Min(GrabAmount(sh.capacity), |q|);
    }
  }

  /** What one step does to the coordinator's list: a worker that parks goes to the back, the one at the front is
      taken out and its `wakeups_` bumped, or a worker is unlinked. */
  ghost predicate ParkedStep(s: State, s': State) {
    var q, q' := s.shared.parked, s'.shared.parked;
    || q' == q
    || (exists i :: i !in q && q' == q + [i] && Parks(s, i))
    || (q != [] && q' == q[1..] && (q[0] < |s.workers| ==> Bumped(s, s', q[0])))
    || (exists i :: q' == Without(q, i))
  }

  predicate Parks(s: State, i: nat) { i < |s.workers| && s.workers[i].pc.Park? }

  predicate Bumped(s: State, s': State, i: nat) {
    i < |s.workers| && i < |s'.workers| && s'.workers[i].wakeups == s.workers[i].wakeups + 1
  }

  lemma ExecParked(sh: Shared, i: nat, w: Worker, workers: nat, a: Act)
    ensures var q, q' := sh.parked, Exec(sh, i, w, workers, a).shared.parked;
      q' == q || (i !in q && q' == q + [i] && w.pc.Park?) || q' == Without(q, i)
  {
    if a.Go? && Picking(w.pc) { PickParked(sh, i, w, workers); }
  }

  lemma PickParked(sh: Shared, i: nat, w: Worker, workers: nat)
    ensures var q, q' := sh.parked, ExecPick(sh, i, w, workers).shared.parked; q' == q || q' == Without(q, i)
  {
  }

  lemma WorkerMovesParked(s: State, i: nat, a: Act)
    requires i < |s.workers|
    ensures ParkedStep(s, WorkerStep(s, i, a))
  {
    ExecParked(s.shared, i, s.workers[i], |s.workers|, a);
    assert s.workers[i].pc.Park? ==> Parks(s, i);
  }

  lemma OutsiderMovesParked(s: State, j: nat, a: Act)
    requires j < |s.outsiders|
    ensures ParkedStep(s, OutsiderStep(s, j, a))
  {
  }

  /** The longest-parked worker is woken first. */
  lemma ParkedIsFifo(s: State, s': State)
    requires Next(s, s')
    ensures ParkedStep(s, s')
  {
    if i: nat, a :| i < |s.workers| && s' == WorkerStep(s, i, a) {
      WorkerMovesParked(s, i, a);
    } else {
      var j: nat, a :| j < |s.outsiders| && s' == OutsiderStep(s, j, a);
      OutsiderMovesParked(s, j, a);
    }
  }

  // ---------------------------------------------------------------------------------------------
  // Bounded waiting in a local queue

  /** From `run[a]` to `run[b]`, `added` has come into the worker's local queue, and the first `gone` have left. */
  ghost predicate MovedAlong(run: seq<State>, w: nat, a: nat, b: nat, added: seq<Task>, gone: nat) {
    && a <= b < |run| && w < |run[a].workers| && w < |run[b].workers|
    && Moved(run[a].workers[w].local, run[b].workers[w].local, added, gone)
  }

  ghost predicate StepMoves(s: State, s': State, w: nat, added: seq<Task>, gone: nat) {
    && w < |s.workers| && w < |s'.workers| && Moved(s.workers[w].local, s'.workers[w].local, added, gone)
    && (PickedFrom(FromLocal, s.workers[w], s'.workers[w]) ==> gone == 1)
  }

  ghost predicate MovesSome(s: State, s': State, w: nat) { exists added, gone :: StepMoves(s, s', w, added, gone) }

  ghost predicate MovesAt(run: seq<State>, k: int, w: nat) {
    0 <= k && k + 1 < |run| && w < |run[k].workers| ==> MovesSome(run[k], run[k + 1], w)
  }

  lemma {:induction false} MovesAlong(run: seq<State>, w: nat, a: nat, b: nat) returns (added: seq<Task>, gone: nat)
    requires forall k :: MovesAt(run, k, w)
    requires a <= b < |run| && forall k :: a <= k <= b ==> w < |run[k].workers|
    ensures MovedAlong(run, w, a, b, added, gone) && Picks(FromLocal, PathOf(run, w, a, b)) <= gone
  {
    added, gone := [], 0;
    if a < b {
      added, gone := MovesAlong(run, w, a, b - 1);
      assert MovesAt(run, b - 1, w);
      OneMorePick(run, w, a, b);
      added, gone := OneMoreMove(run, w, a, b - 1, b, added, gone);
    }
  }

  lemma SomeMove(s: State, s': State, w: nat) returns (added: seq<Task>, gone: nat)
    requires MovesSome(s, s', w)
    ensures StepMoves(s, s', w, added, gone)
  {
    added, gone :| StepMoves(s, s', w, added, gone);
  }

  lemma OneMoreMove(run: seq<State>, w: nat, a: nat, h: nat, b: nat, before: seq<Task>, left: nat)
      returns (added: seq<Task>, gone: nat)
    requires b == h + 1 < |run| && MovedAlong(run, w, a, h, before, left) && MovesSome(run[h], run[b], w)
    ensures MovedAlong(run, w, a, b, added, gone)
    ensures gone >= left + One(PickedFrom(FromLocal, run[h].workers[w], run[b].workers[w]))
  {
    added, gone := SomeMove(run[h], run[b], w);
    MovedTwice(run[a].workers[w].local, run[h].workers[w].local, run[b].workers[w].local, before, left, added, gone);
    added, gone := before + added, left + gone;
  }

  lemma OneMorePick(run: seq<State>, w: nat, a: nat, b: nat)
    requires a < b < |run| && forall k :: a <= k <= b ==> w < |run[k].workers|
    ensures Picks(FromLocal, PathOf(run, w, a, b))
            == Picks(FromLocal, PathOf(run, w, a, b - 1))
               + One(PickedFrom(FromLocal, run[b - 1].workers[w], run[b].workers[w]))
  {
    var path := PathOf(run, w, a, b);
    assert path[..|path| - 1] == PathOf(run, w, a, b - 1);
  }

  lemma AllMove(run: seq<State>, w: nat)
    requires IsRun(Init, Next, run)
    ensures forall k :: MovesAt(run, k, w)
  {
    forall k ensures MovesAt(run, k, w) {
      if 0 <= k && k + 1 < |run| && w < |run[k].workers| {
        var added, gone := LocalIsFifo(run[k], run[k + 1], w);
        assert StepMoves(run[k], run[k + 1], w, added, gone);
      }
    }
  }

  /** A worker that turns away from a queue has found it empty, or has used up its chain of LIFO picks. */
  ghost predicate TurnsAway(s: State, s': State, w: nat)
    requires w < |s.workers| && w < |s'.workers|
  {
    var v, v' := s.workers[w], s'.workers[w];
    && (LocalMiss(v, v') ==> v.local == [])
    && (v.pc.GetLifo? && v'.pc.GetLocal? ==> v.lifo == [] || v.chain >= LIFO_MAX_CHAIN)
    && ((v.pc.Poll? && v'.pc.GetLifo?) || (v.pc.GetGlobal? && v'.pc.Steal?) ==> s.shared.global == [])
  }

  lemma PickTurnsAway(s: State, i: nat)
    requires i < |s.workers| && Picking(s.workers[i].pc)
    ensures TurnsAway(s, WorkerStep(s, i, Go), i)
  {
  }

  lemma WorkerTurnsAway(s: State, i: nat, a: Act, w: nat)
    requires i < |s.workers| && w < |s.workers|
    ensures TurnsAway(s, WorkerStep(s, i, a), w)
  {
    if i != w {
      OtherStepFair(s, i, a, w);
    } else if a.Go? && Picking(s.workers[w].pc) {
      PickTurnsAway(s, w);
    }
  }

  lemma OutsiderTurnsAway(s: State, j: nat, a: Act, w: nat)
    requires j < |s.outsiders| && w < |s.workers|
    ensures w < |OutsiderStep(s, j, a).workers| && TurnsAway(s, OutsiderStep(s, j, a), w)
  {
    OutsiderStepFair(s, j, a, w);
  }

  lemma NextTurnsAway(s: State, s': State, w: nat)
    requires Next(s, s') && w < |s.workers|
    ensures w < |s'.workers| && TurnsAway(s, s', w)
  {
    if u: nat, a :| u < |s.workers| && s' == WorkerStep(s, u, a) {
      WorkerTurnsAway(s, u, a, w);
    } else {
      var j: nat, a :| j < |s.outsiders| && s' == OutsiderStep(s, j, a);
      OutsiderTurnsAway(s, j, a, w);
    }
  }

  /** In every run, a worker goes on to the next queue only if the one it looks at is empty, or if it has taken
      16 tasks from the LIFO slot in a row. */
  lemma MissesAreTrue(run: seq<State>, i: nat, w: nat)
    requires IsRun(Init, Next, run) && i + 1 < |run| && w < |run[i].workers|
    ensures w < |run[i + 1].workers| && TurnsAway(run[i], run[i + 1], w)
  {
    NextTurnsAway(run[i], run[i + 1], w);
  }

  /** Waiting is bounded: whatever the LIFO slot, the global queue and the other threads do, the task at
      position `p` of a local queue has left it, for its worker, for the global queue or for a thief, before
      the worker has begun `18 * (p + 1) + 3` more calls of `PickTask`. */
  lemma TaskLeaves(run: seq<State>, w: nat, a: nat, b: nat, p: nat) returns (m: nat, added: seq<Task>, gone: nat)
    requires IsRun(Init, Next, run) && a <= b < |run|
    requires forall k :: a <= k <= b ==> w < |run[k].workers|
    requires run[a].workers[w].pc == Top && p < |run[a].workers[w].local|
    requires run[b].workers[w].iter >= run[a].workers[w].iter + 18 * (p + 1) + 3
    ensures a <= m <= b && MovedAlong(run, w, a, m, added, gone) && gone > p
  {
    AllMove(run, w);
    if k :| a <= k < b && LocalMiss(run[k].workers[w], run[k + 1].workers[w]) {
      m := k;
      MissesAreTrue(run, k, w);
      added, gone := MovesAlong(run, w, a, k);
    } else {
      m := b;
      BoundedBypass(run, w, a, b);
      added, gone := PickedPast(run, w, a, b, p);
    }
  }

  lemma PickedPast(run: seq<State>, w: nat, a: nat, b: nat, p: nat) returns (added: seq<Task>, gone: nat)
    requires forall k :: MovesAt(run, k, w)
    requires a <= b < |run| && forall k :: a <= k <= b ==> w < |run[k].workers|
    requires run[b].workers[w].iter >= run[a].workers[w].iter + 18 * (p + 1) + 3 && Bounded(PathOf(run, w, a, b))
    ensures MovedAlong(run, w, a, b, added, gone) && gone > p
  {
    added, gone := MovesAlong(run, w, a, b);
    EnoughPicks(run[b].workers[w].iter - run[a].workers[w].iter, p);
  }

  lemma EnoughPicks(n: nat, p: nat)
    requires n >= 18 * (p + 1) + 3
    ensures (n - 1 - (n + 60) / 61) / 17 >= p + 1
  {
    assert 61 * ((n + 60) / 61) <= n + 60;
  }
}
