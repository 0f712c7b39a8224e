/**
 The timer thread of the first multi-threaded runtime, and the blocking queue it waits on, as a
 transition system. A section under the queue's mutex is one step, `wait` splits one in two; sleep
 lasts at least as long as asked, waits may end spuriously, and the clock never goes back. The
 queue's heap is a bag here: `Pop` takes any timer with the earliest deadline (see `LeftistHeap`).
 */
module TimerThread {
  import opened Common
  import opened Counting
  import opened Runs

  datatype Timer = Timer(id: nat, deadline: int)

  /** Where the timer thread is. `deadline` is what `NearestDeadLine` returned in this round. */
  datatype Pc =
    | Asking
    | AskWait(notified: bool)
    | Answered(deadline: int)
    | Looked(deadline: int, now: int)
    | Asleep(deadline: int, until: int)
    | Getting(deadline: int)
    | GetWait(deadline: int, notified: bool)
    | Submitting(deadline: int, timer: Option<Timer>)
    | Ended

  /** A thread inside `Set` that has computed the deadline and not pushed yet, or one outside. */
  datatype Setter = Outside | Computed(timer: Timer)

  datatype Submission = Submission(timer: Option<Timer>, at: int)

  /** `pushed` and `submitted` are histories; `early` is how many timers were pushed before `Close`. */
  datatype State = State(
    buffer: seq<Timer>, waiting: nat, closed: bool, clock: int, pc: Pc, setters: seq<Setter>,
    pushed: seq<Timer>, early: nat, submitted: seq<Submission>)

  datatype Act =
    | Tick(delta: nat)
    | SetStart(who: nat, id: nat, delay: int)
    | SetPush(who: nat)
    | Close
    | Go(pick: nat)

  ghost predicate Init(s: State) {
    && s.buffer == [] && s.waiting == 0 && !s.closed && s.pc.Asking?
    && (forall i :: 0 <= i < |s.setters| ==> s.setters[i].Outside?)
    && s.pushed == [] && s.early == 0 && s.submitted == []
  }

  predicate Waits(pc: Pc) { pc.AskWait? || pc.GetWait? }

  predicate Notified(pc: Pc) { (pc.AskWait? || pc.GetWait?) && pc.notified }

  /** `notify_one`, called when the queue knows of a waiter. There is only one. */
  function Notify(pc: Pc): Pc {
    match pc
    case AskWait(_) => AskWait(true)
    case GetWait(d, _) => GetWait(d, true)
    case _ => pc
  }

  /** The timers in `s` that no other precedes. */
  predicate IsEarliest(s: seq<Timer>, i: nat) {
    i < |s| && forall j :: 0 <= j < |s| ==> s[i].deadline <= s[j].deadline
  }

  /** Some earliest timer, chosen by `pick` if that is one. */
  ghost function Earliest(s: seq<Timer>, pick: nat): (i: nat)
    requires s != []
    ensures IsEarliest(s, i)
  {
    EarliestExists(s);
    if IsEarliest(s, pick) then pick else var i: nat :| IsEarliest(s, i); i
  }

  lemma {:induction false} EarliestExists(s: seq<Timer>)
    requires s != []
    ensures exists i: nat :: IsEarliest(s, i)
  {
    if |s| == 1 {
      assert IsEarliest(s, 0);
    } else {
      var front := s[..|s| - 1];
      EarliestExists(front);
      var i: nat :| IsEarliest(front, i);
      if front[i].deadline <= s[|s| - 1].deadline { assert IsEarliest(s, i); } else { assert IsEarliest(s, |s| - 1); }
    }
  }

  function Without(s: seq<Timer>, i: nat): seq<Timer>
    requires i < |s|
  {
    s[..i] + s[i + 1..]
  }

  /** The critical section of `NearestDeadLine`; `waited` says whether this is after a wait. */
  ghost function Ask(s: State, waited: bool): State {
    if !s.closed && s.buffer == [] then s.(waiting := if waited then s.waiting else s.waiting + 1, pc := AskWait(false))
    else
      var s' := if waited && s.waiting > 0 then s.(waiting := s.waiting - 1) else s;
      if s.buffer == [] then s'.(pc := Ended) else s'.(pc := Answered(s.buffer[Earliest(s.buffer, 0)].deadline))
  }

  /** The critical section of `GetClosestTimer`. */
  ghost function Get(s: State, waited: bool, deadline: int, pick: nat): State {
    if !s.closed && s.buffer == [] then
      s.(waiting := if waited then s.waiting else s.waiting + 1, pc := GetWait(deadline, false))
    else
      var s' := if waited && s.waiting > 0 then s.(waiting := s.waiting - 1) else s;
      if s.buffer == [] then s'.(pc := Submitting(deadline, None))
      else
        var i := Earliest(s.buffer, pick);
        s'.(pc := Submitting(deadline, Some(s.buffer[i])), buffer := Without(s.buffer, i))
  }

  /** One step of the timer thread. */
  ghost function Thread(s: State, pick: nat): State {
    match s.pc
    case Asking => Ask(s, false)
    case AskWait(_) => Ask(s, true)
    case Answered(deadline) => s.(pc := Looked(deadline, s.clock))
    case Looked(deadline, now) =>
      if now < deadline then s.(pc := Asleep(deadline, s.clock + (deadline - now))) else s.(pc := Getting(deadline))
    case Asleep(deadline, until) => if s.clock < until then s else s.(pc := Getting(deadline))
    case Getting(deadline) => Get(s, false, deadline, pick)
    case GetWait(deadline, _) => Get(s, true, deadline, pick)
    case Submitting(_, timer) => s.(pc := Asking, submitted := s.submitted + [Submission(timer, s.clock)])
    case Ended => s
  }

  ghost predicate Enabled(s: State, a: Act) {
    match a
    case SetStart(who, _, _) => who < |s.setters| && s.setters[who].Outside?
    case SetPush(who) => who < |s.setters| && s.setters[who].Computed?
    case _ => true
  }

  ghost function Step(s: State, a: Act): State
    requires Enabled(s, a)
  {
    match a
    case Tick(delta) => s.(clock := s.clock + delta)
    case SetStart(who, id, delay) => s.(setters := s.setters[who := Computed(Timer(id, s.clock + delay))])
    case SetPush(who) =>
      var t := s.setters[who].timer;
      s.(setters := s.setters[who := Outside], buffer := s.buffer + [t], pushed := s.pushed + [t],
         early := if s.closed then s.early else s.early + 1,
         pc := if s.waiting > 0 then Notify(s.pc) else s.pc)
    case Close => s.(closed := true, pc := if s.waiting > 0 then Notify(s.pc) else s.pc)
    case Go(pick) => Thread(s, pick)
  }

  ghost predicate Next(s: State, s': State) { exists a :: Enabled(s, a) && s' == Step(s, a) }

  // ---------------------------------------------------------------------------------------------
  // The invariant

  /** The deadline of this round has not been overtaken: some timer in the buffer is due by then. */
  ghost predicate Someone(buffer: seq<Timer>, deadline: int) {
    exists i :: 0 <= i < |buffer| && buffer[i].deadline <= deadline
  }

  ghost predicate RoundOk(s: State) {
    match s.pc
    case Asking => true
    case AskWait(_) => true
    case Answered(d) => Someone(s.buffer, d)
    case Looked(d, now) => Someone(s.buffer, d) && now <= s.clock
    case Asleep(d, until) => Someone(s.buffer, d) && d <= until
    case Getting(d) => Someone(s.buffer, d) && d <= s.clock
    case GetWait(_, _) => false
    case Submitting(d, t) => t.Some? && t.value.deadline <= s.clock
    case Ended => s.closed
  }

  ghost predicate WaitOk(s: State) {
    && s.waiting == One(Waits(s.pc))
    && (Waits(s.pc) && !Notified(s.pc) ==> !s.closed && s.buffer == [])
  }

  ghost predicate PunctualOnes(submitted: seq<Submission>) {
    forall i :: 0 <= i < |submitted| ==>
      submitted[i].timer.Some? && submitted[i].timer.value.deadline <= submitted[i].at
  }

  function InHand(pc: Pc, t: Timer): nat { One(pc.Submitting? && pc.timer == Some(t)) }

  /** How often `t` has been submitted. */
  function Times(submitted: seq<Submission>, t: Timer): nat {
    if submitted == [] then 0
    else Times(submitted[..|submitted| - 1], t) + One(submitted[|submitted| - 1].timer == Some(t))
  }

  ghost predicate Conserved(s: State) {
    forall t :: Balanced(s, t)
  }

  ghost predicate Balanced(s: State, t: Timer) {
    Occ(s.pushed, t) == Occ(s.buffer, t) + InHand(s.pc, t) + Times(s.submitted, t)
  }

  /** The timer thread ends only after `Close`, with every timer pushed before then submitted. */
  ghost predicate EndOk(s: State) {
    && s.early <= |s.pushed|
    && (!s.closed ==> s.early == |s.pushed|)
    && (s.pc.Ended? ==> forall t :: Served(s, t))
  }

  ghost predicate Served(s: State, t: Timer)
    requires s.early <= |s.pushed|
  {
    Occ(s.pushed[..s.early], t) <= Times(s.submitted, t)
  }

  ghost predicate Inv(s: State) { RoundOk(s) && WaitOk(s) && PunctualOnes(s.submitted) && Conserved(s) && EndOk(s) }

  lemma {:induction false} WithoutOcc(s: seq<Timer>, i: nat, t: Timer)
    requires i < |s|
    ensures Occ(Without(s, i), t) + One(s[i] == t) == Occ(s, t)
  {
    OccConcat(s[..i], s[i + 1..], t);
    OccConcat([s[i]], s[i + 1..], t);
    OccConcat(s[..i], [s[i]] + s[i + 1..], t);
    assert s == s[..i] + ([s[i]] + s[i + 1..]);
  }

  lemma SetPushKeeps(s: State, who: nat)
    requires Inv(s) && Enabled(s, SetPush(who))
    ensures Inv(Step(s, SetPush(who)))
  {
    var s' := Step(s, SetPush(who));
    var x := s.setters[who].timer;
    assert forall i :: 0 <= i < |s.buffer| ==> s'.buffer[i] == s.buffer[i];
    assert s'.pushed[..s.early] == s.pushed[..s.early];
    assert s.early == |s.pushed| ==> s'.pushed[..s.early] == s.pushed;
    forall t ensures Balanced(s', t) {
      assert Balanced(s, t);
      OccConcat(s.pushed, [x], t);
      OccConcat(s.buffer, [x], t);
    }
    if s.pc.Ended? {
      forall t ensures Served(s', t) { assert Served(s, t); }
    }
  }

  lemma GetKeeps(s: State, pick: nat)
    requires Inv(s) && s.pc.Getting?
    ensures Inv(Thread(s, pick))
  {
    var s' := Thread(s, pick);
    var i := Earliest(s.buffer, pick);
    forall t ensures Balanced(s', t) {
      assert Balanced(s, t);
      WithoutOcc(s.buffer, i, t);
    }
  }

  lemma SubmitKeeps(s: State, pick: nat)
    requires Inv(s) && s.pc.Submitting?
    ensures Inv(Thread(s, pick))
  {
    var s' := Thread(s, pick);
    assert s'.submitted[..|s.submitted|] == s.submitted;
    forall t ensures Balanced(s', t) { assert Balanced(s, t); }
  }

  lemma AskKeeps(s: State, pick: nat)
    requires Inv(s) && (s.pc.Asking? || s.pc.AskWait?)
    ensures Inv(Thread(s, pick))
  {
    var s' := Thread(s, pick);
    forall t ensures Balanced(s', t) { assert Balanced(s, t); }
    if s'.pc.Ended? {
      forall t ensures Served(s', t) {
        assert Balanced(s, t);
        assert s.pushed == s.pushed[..s.early] + s.pushed[s.early..];
        OccConcat(s.pushed[..s.early], s.pushed[s.early..], t);
      }
    } else if s'.pc.Answered? {
      assert s.buffer[Earliest(s.buffer, 0)].deadline <= s'.pc.deadline;
    }
  }

  lemma RestKeeps(s: State, a: Act)
    requires Inv(s) && Enabled(s, a) && !a.SetPush?
    requires a.Go? ==> s.pc.Answered? || s.pc.Looked? || s.pc.Asleep? || s.pc.Ended?
    ensures Inv(Step(s, a))
  {
    var s' := Step(s, a);
    forall t ensures Balanced(s', t) { assert Balanced(s, t); }
    if s'.pc.Ended? {
      forall t ensures Served(s', t) { assert Served(s, t); }
    }
  }

  lemma StepKeepsInv(s: State, a: Act)
    requires Inv(s) && Enabled(s, a)
    ensures Inv(Step(s, a))
  {
    if a.SetPush? { SetPushKeeps(s, a.who); }
    else if a.Go? && s.pc.Getting? { GetKeeps(s, a.pick); }
    else if a.Go? && s.pc.Submitting? { SubmitKeeps(s, a.pick); }
    else if a.Go? && (s.pc.Asking? || s.pc.AskWait?) { AskKeeps(s, a.pick); }
    else { RestKeeps(s, a); }
  }

  lemma RunKeepsInv(run: seq<State>, i: nat)
    requires IsRun(Init, Next, run) && i < |run|
    ensures Inv(run[i])
  {
    forall s | Init(s) ensures Inv(s) { forall t ensures Balanced(s, t) {} }
    forall s, s' | Inv(s) && Next(s, s') ensures Inv(s') {
      var a :| Enabled(s, a) && s' == Step(s, a);
      StepKeepsInv(s, a);
    }
    Invariance(Init, Next, Inv, run);
  }

  // ---------------------------------------------------------------------------------------------
  // Results

  /** No timer is submitted before its deadline, and none of the submitted pointers is null. */
  lemma NeverEarlyNeverNull(run: seq<State>, i: nat, k: nat)
    requires IsRun(Init, Next, run) && i < |run| && k < |run[i].submitted|
    ensures run[i].submitted[k].timer.Some?
    ensures run[i].submitted[k].timer.value.deadline <= run[i].submitted[k].at
  {
    RunKeepsInv(run, i);
  }

  /** No timer is submitted more often than it was pushed, and when the thread has ended every timer
      pushed before `Close` has been submitted as often as it was pushed. */
  lemma SubmittedExactlyOnce(run: seq<State>, i: nat, t: Timer)
    requires IsRun(Init, Next, run) && i < |run|
    ensures var s := run[i];
      && Times(s.submitted, t) <= Occ(s.pushed, t)
      && s.early <= |s.pushed|
      && (s.pc.Ended? ==> s.closed && Occ(s.pushed[..s.early], t) <= Times(s.submitted, t))
  {
    RunKeepsInv(run, i);
    assert Balanced(run[i], t);
    if run[i].pc.Ended? { assert Served(run[i], t); }
  }

  /** The timer thread never sleeps through work: while it waits without a notification on its way,
      the queue is open and empty. In `GetClosestTimer` it never waits at all. */
  lemma NoMissedNotification(run: seq<State>, i: nat)
    requires IsRun(Init, Next, run) && i < |run|
    ensures var s := run[i];
      && !s.pc.GetWait?
      && (s.pc.AskWait? && !s.pc.notified ==> s.buffer == [] && !s.closed)
  {
    RunKeepsInv(run, i);
  }

  // ---------------------------------------------------------------------------------------------
  // What a call of `Set` sets

  ghost predicate StartsSet(s: State, s': State, who: nat, id: nat, delay: int) {
    Enabled(s, SetStart(who, id, delay)) && s' == Step(s, SetStart(who, id, delay))
  }

  ghost predicate PushesSet(s: State, s': State, who: nat) {
    Enabled(s, SetPush(who)) && s' == Step(s, SetPush(who))
  }

  ghost predicate Inside(s: State, who: nat) { who < |s.setters| && s.setters[who].Computed? }

  /** Thread `who` has called `Set(id, delay)` in the step from `run[j]` and has not pushed before `run[i]`. */
  ghost predicate SetSpan(run: seq<State>, j: nat, i: nat, who: nat, id: nat, delay: int) {
    && j < i < |run| && StartsSet(run[j], run[j + 1], who, id, delay)
    && forall k :: j < k <= i ==> Inside(run[k], who)
  }

  ghost predicate StartsSome(s: State, s': State, who: nat) { exists id, delay :: StartsSet(s, s', who, id, delay) }

  /** Who is inside `Set` was so before, with the same timer, or has just called it. */
  ghost predicate InsideFrom(s: State, s': State, who: nat) {
    Inside(s', who) ==>
      (Inside(s, who) && s'.setters[who] == s.setters[who]) || StartsSome(s, s', who)
  }

  ghost predicate InsideFromAt(run: seq<State>, k: int, who: nat) {
    0 <= k && k + 1 < |run| ==> InsideFrom(run[k], run[k + 1], who)
  }

  lemma ThreadSetsNothing(s: State, pick: nat)
    ensures Thread(s, pick).setters == s.setters && Thread(s, pick).pushed == s.pushed
  {
  }

  lemma NextInsideFrom(s: State, s': State, who: nat)
    requires Next(s, s')
    ensures InsideFrom(s, s', who)
  {
    var a :| Enabled(s, a) && s' == Step(s, a);
    if a.Go? { ThreadSetsNothing(s, a.pick); }
    if a.SetStart? && a.who == who { assert StartsSet(s, s', who, a.id, a.delay); }
  }

  lemma {:induction false} SetAlong(run: seq<State>, i: nat, who: nat) returns (j: nat, id: nat, delay: int)
    requires forall k :: InsideFromAt(run, k, who)
    requires i < |run| && Inside(run[i], who) && !Inside(run[0], who)
    ensures SetSpan(run, j, i, who, id, delay)
    ensures run[i].setters[who].timer == Timer(id, run[j].clock + delay)
  {
    assert InsideFromAt(run, i - 1, who);
    if StartsSome(run[i - 1], run[i], who) {
      j := i - 1;
      id, delay :| StartsSet(run[j], run[i], who, id, delay);
    } else {
      j, id, delay := SetAlong(run, i - 1, who);
    }
  }

  /** A thread inside `Set(id, delay)` is going to push the timer `id`, due `delay` after the call. */
  lemma InsideItsSet(run: seq<State>, i: nat, who: nat) returns (j: nat, id: nat, delay: int)
    requires IsRun(Init, Next, run) && i < |run| && Inside(run[i], who)
    ensures SetSpan(run, j, i, who, id, delay)
    ensures run[i].setters[who].timer == Timer(id, run[j].clock + delay)
  {
    forall k ensures InsideFromAt(run, k, who) {
      if 0 <= k && k + 1 < |run| { NextInsideFrom(run[k], run[k + 1], who); }
    }
    j, id, delay := SetAlong(run, i, who);
  }

  ghost predicate PushesSome(s: State, s': State) { exists who :: PushesSet(s, s', who) }

  /** What has been pushed stays, and only `Set` pushes, one timer at a time. */
  ghost predicate PushedFrom(s: State, s': State) { s'.pushed == s.pushed || PushesSome(s, s') }

  ghost predicate PushedFromAt(run: seq<State>, k: int) {
    0 <= k && k + 1 < |run| ==> PushedFrom(run[k], run[k + 1])
  }

  lemma NextPushedFrom(s: State, s': State)
    requires Next(s, s')
    ensures PushedFrom(s, s')
  {
    var a :| Enabled(s, a) && s' == Step(s, a);
    if a.Go? { ThreadSetsNothing(s, a.pick); }
    if a.SetPush? { assert PushesSet(s, s', a.who); }
  }

  lemma {:induction false} PushAlong(run: seq<State>, i: nat, x: nat) returns (a: nat, who: nat)
    requires forall k :: PushedFromAt(run, k)
    requires i < |run| && x < |run[i].pushed| && run[0].pushed == []
    ensures a < i && PushesSet(run[a], run[a + 1], who) && run[a].setters[who].timer == run[i].pushed[x]
    ensures |run[a].pushed| == x
  {
    assert PushedFromAt(run, i - 1);
    if x < |run[i - 1].pushed| {
      a, who := PushAlong(run, i - 1, x);
    } else {
      a := i - 1;
      who :| PushesSet(run[a], run[i], who);
    }
  }

  /** Every timer that has ever been pushed was pushed by a call `Set(id, delay)` of some thread, and has this
      `id` and the deadline `delay` after the call. */
  lemma PushedBySet(run: seq<State>, i: nat, x: nat) returns (j: nat, a: nat, who: nat, id: nat, delay: int)
    requires IsRun(Init, Next, run) && i < |run| && x < |run[i].pushed|
    ensures a < i && |run[a].pushed| == x && PushesSet(run[a], run[a + 1], who)
    ensures SetSpan(run, j, a, who, id, delay)
    ensures run[i].pushed[x] == Timer(id, run[j].clock + delay)
  {
    forall k ensures PushedFromAt(run, k) {
      if 0 <= k && k + 1 < |run| { NextPushedFrom(run[k], run[k + 1]); }
    }
    a, who := PushAlong(run, i, x);
    j, id, delay := InsideItsSet(run, a, who);
  }

  lemma {:induction false} TimesPositive(submitted: seq<Submission>, k: nat)
    requires k < |submitted| && submitted[k].timer.Some?
    ensures Times(submitted, submitted[k].timer.value) > 0
  {
    if k < |submitted| - 1 {
      assert submitted[..|submitted| - 1][k] == submitted[k];
      TimesPositive(submitted[..|submitted| - 1], k);
    }
  }

  /** Whatever is submitted was set by a call `Set(id, delay)`, and at least `delay` has passed since then. */
  lemma NotBeforeTheDelay(run: seq<State>, i: nat, k: nat) returns (j: nat, who: nat, id: nat, delay: int)
    requires IsRun(Init, Next, run) && i < |run| && k < |run[i].submitted|
    ensures j < i && StartsSet(run[j], run[j + 1], who, id, delay)
    ensures run[i].submitted[k].timer == Some(Timer(id, run[j].clock + delay))
    ensures run[i].submitted[k].at >= run[j].clock + delay
  {
    NeverEarlyNeverNull(run, i, k);
    var t := run[i].submitted[k].timer.value;
    SubmittedExactlyOnce(run, i, t);
    TimesPositive(run[i].submitted, k);
    OccMember(run[i].pushed, t);
    var x :| 0 <= x < |run[i].pushed| && run[i].pushed[x] == t;
    var a;
    j, a, who, id, delay := PushedBySet(run, i, x);
  }

  // ---------------------------------------------------------------------------------------------
  // A round of the thread

  /** The deadline of the round that the thread is in, up to the end of its sleep. */
  predicate Until(pc: Pc, deadline: int) {
    (pc.Answered? || pc.Looked? || pc.Asleep?) && pc.deadline == deadline
  }

  ghost predicate AsksFor(s: State, deadline: int) {
    (s.pc.Asking? || s.pc.AskWait?) && exists x: nat :: IsEarliest(s.buffer, x) && s.buffer[x].deadline == deadline
  }

  ghost predicate RoundFrom(s: State, s': State, deadline: int) {
    Until(s'.pc, deadline) ==> Until(s.pc, deadline) || AsksFor(s, deadline)
  }

  ghost predicate RoundFromAt(run: seq<State>, k: int, deadline: int) {
    0 <= k && k + 1 < |run| ==> RoundFrom(run[k], run[k + 1], deadline)
  }

  lemma ThreadRoundFrom(s: State, pick: nat, deadline: int)
    ensures RoundFrom(s, Thread(s, pick), deadline)
  {
    if (s.pc.Asking? || s.pc.AskWait?) && s.buffer != [] {
      var x := Earliest(s.buffer, 0);
      assert IsEarliest(s.buffer, x);
    }
  }

  lemma NextRoundFrom(s: State, s': State, deadline: int)
    requires Next(s, s')
    ensures RoundFrom(s, s', deadline)
  {
    var a :| Enabled(s, a) && s' == Step(s, a);
    if a.Go? { ThreadRoundFrom(s, a.pick, deadline); }
  }

  lemma {:induction false} RoundAlong(run: seq<State>, i: nat, deadline: int) returns (k: nat)
    requires forall k :: RoundFromAt(run, k, deadline)
    requires i < |run| && Until(run[i].pc, deadline) && run[0].pc.Asking?
    ensures k < i && AsksFor(run[k], deadline) && forall l :: k < l <= i ==> Until(run[l].pc, deadline)
  {
    assert RoundFromAt(run, i - 1, deadline);
    if Until(run[i - 1].pc, deadline) {
      k := RoundAlong(run, i - 1, deadline);
    } else {
      k := i - 1;
    }
  }

  /** The deadline until which the thread sleeps was the earliest in the queue when this round began. */
  lemma SleepsForTheNearest(run: seq<State>, i: nat, deadline: int) returns (k: nat)
    requires IsRun(Init, Next, run) && i < |run| && Until(run[i].pc, deadline)
    ensures k < i && AsksFor(run[k], deadline) && forall l :: k < l <= i ==> Until(run[l].pc, deadline)
  {
    forall k ensures RoundFromAt(run, k, deadline) {
      if 0 <= k && k + 1 < |run| { NextRoundFrom(run[k], run[k + 1], deadline); }
    }
    k := RoundAlong(run, i, deadline);
  }

  /** The thread has looked at the clock when it showed `now`. */
  predicate Sleepy(s: State, deadline: int, now: int) { s.pc == Looked(deadline, now) }

  ghost predicate LookedFromAt(run: seq<State>, k: int, deadline: int, now: int) {
    0 <= k && k + 1 < |run| && Sleepy(run[k + 1], deadline, now) ==>
      Sleepy(run[k], deadline, now) || (run[k].pc == Answered(deadline) && run[k].clock == now)
  }

  lemma {:induction false} LookedAlong(run: seq<State>, i: nat, deadline: int, now: int) returns (k: nat)
    requires forall k :: LookedFromAt(run, k, deadline, now)
    requires i < |run| && Sleepy(run[i], deadline, now) && run[0].pc.Asking?
    ensures k < i && run[k].clock == now && forall l :: k < l <= i ==> Sleepy(run[l], deadline, now)
  {
    assert LookedFromAt(run, i - 1, deadline, now);
    if Sleepy(run[i - 1], deadline, now) {
      k := LookedAlong(run, i - 1, deadline, now);
    } else {
      k := i - 1;
    }
  }

  /** The thread never sleeps past the deadline by more than what has passed between its look at the clock, in
      `run[k]`, and the beginning of its sleep, in `run[i]`. */
  lemma SleepsNoLonger(run: seq<State>, i: nat, pick: nat) returns (k: nat)
    requires IsRun(Init, Next, run) && i < |run| && run[i].pc.Looked? && Thread(run[i], pick).pc.Asleep?
    ensures k < i && Thread(run[i], pick).pc.until - run[i].pc.deadline == run[i].clock - run[k].clock
    ensures forall l :: k < l <= i ==> run[l].pc == run[i].pc
  {
    var deadline, now := run[i].pc.deadline, run[i].pc.now;
    forall k ensures LookedFromAt(run, k, deadline, now) {
      if 0 <= k && k + 1 < |run| && Sleepy(run[k + 1], deadline, now) {
        var a :| Enabled(run[k], a) && run[k + 1] == Step(run[k], a);
      }
    }
    k := LookedAlong(run, i, deadline, now);
  }

  /** Steps that the thread has still to take once the queue is closed and nobody pushes any more. */
  function Remaining(s: State): nat {
    6 * |s.buffer| + (match s.pc
                      case Asking => 5
                      case AskWait(_) => 5
                      case Answered(_) => 4
                      case Looked(_, _) => 3
                      case Asleep(_, _) => 2
                      case Getting(_) => 1
                      case GetWait(_, _) => 1
                      case Submitting(_, _) => 6
                      case Ended => 0)
  }

  /** After `Close` every step of the thread, but for sleeping on, brings the end of `Run` closer. */
  lemma RunEnds(run: seq<State>, i: nat, pick: nat)
    requires IsRun(Init, Next, run) && i < |run| && run[i].closed && !run[i].pc.Ended?
    requires run[i].pc.Asleep? ==> run[i].pc.until <= run[i].clock
    ensures Remaining(Thread(run[i], pick)) < Remaining(run[i])
  {
    RunKeepsInv(run, i);
  }
}
