/**
 The work-stealing ring is a linearizable bounded FIFO queue: every step either leaves the abstract
 queue alone, appends one task, or removes exactly a prefix of it; `TryPop` and `TryPush` answer "empty"
 and "full" only at moments when the queue is, and a `Grab` takes what there was at its own load.
 */
module RingSafety {
  import opened Common
  import opened RingMachine
  import opened Remainders
  import opened Runs

  // ---------------------------------------------------------------------------------------------
  // Index arithmetic

  lemma {:induction false} AndSelfPositive(k: nat)
    requires k > 0
    ensures And(k, k) > 0
  {
    if k > 1 { AndSelfPositive(k / 2); }
  }

  /** Where the source masks, masking is the remainder. */
  lemma {:induction false} MaskIsRemainder(capacity: nat, num: nat)
    requires capacity > 0 && And(capacity, capacity - 1) == 0
    ensures And(num, capacity - 1) == num % capacity
  {
    if capacity > 1 {
      var half := capacity / 2;
      if capacity % 2 == 1 {
        assert (capacity - 1) / 2 == half;
        AndSelfPositive(half);
        assert false;
      } else {
        assert (capacity - 1) / 2 == half - 1;
        assert And(half, half - 1) == 0;
        MaskIsRemainder(half, num / 2);
        assert num % capacity == 2 * ((num / 2) % half) + num % 2 by { DoubleRemainder(num, half); }
        if num > 0 {
          assert And(num, capacity - 1) == 2 * And(num / 2, half - 1) + num % 2;
        }
      }
    }
  }

  lemma DoubleRemainder(num: nat, half: nat)
    requires half > 0
    ensures num % (2 * half) == 2 * ((num / 2) % half) + num % 2
  {
    var q, r := (num / 2) / half, (num / 2) % half;
    assert num == 2 * (num / 2) + num % 2;
    assert num / 2 == q * half + r;
    assert num == q * (2 * half) + (2 * r + num % 2);
    RemainderUnique(num, 2 * half, q, 2 * r + num % 2);
  }

  /** Both forms of `Mod` are the remainder, whatever the capacity. */
  lemma ModIsRemainder(capacity: nat, num: nat)
    requires capacity > 0
    ensures Mod(capacity, num) == num % capacity < capacity
  {
    if And(capacity, capacity - 1) == 0 { MaskIsRemainder(capacity, num); }
  }

  /** Two indices less than a lap apart have different slots. */
  lemma SlotsDiffer(capacity: nat, i: nat, j: nat)
    requires capacity > 0 && i < j < i + capacity
    ensures Mod(capacity, i) != Mod(capacity, j)
  {
    ModIsRemainder(capacity, i);
    ModIsRemainder(capacity, j);
    if i % capacity == j % capacity { SameRemainder(i, j, capacity); }
  }

  // ---------------------------------------------------------------------------------------------
  // The invariant

  /** The abstract queue. */
  function Contents(r: Ring): seq<Task> {
    if r.head <= r.tail <= |r.pushed| then r.pushed[r.head..r.tail] else []
  }

  ghost predicate RingOk(r: Ring) {
    && |r.buffer| > 0
    && r.head <= r.tail == |r.pushed|
    && r.tail <= r.head + |r.buffer|
    && r.taken == r.pushed[..r.head]
    && forall i :: r.head <= i < r.tail && Slot(r, i) < |r.buffer| ==> r.buffer[Slot(r, i)] == r.pushed[i]
  }

  /** What a thread has loaded is still meaningful. A copied prefix is right as long as no other
      thread has advanced `head_`. */
  ghost predicate PcOk(r: Ring, pc: Pc)
    requires |r.buffer| > 0
  {
    match pc
    case PushHead(task, tail) => tail == r.tail
    case PushStore(task, tail, head) => tail == r.tail && head <= r.head && tail < head + |r.buffer|
    case PushTail(task, tail) =>
      tail == r.tail && tail < r.head + |r.buffer| && Slot(r, tail) < |r.buffer| && r.buffer[Slot(r, tail)] == task
    case PopTail(head) => head <= r.head
    case PopSlot(head, tail) => head <= r.head && head < tail <= r.tail
    case PopCas(head, task) =>
      head <= r.head && head < r.tail && (head == r.head < |r.pushed| ==> task == r.pushed[head])
    case GrabTail(room, head) => head <= r.head
    case GrabCopy(room, head, tail, got) =>
      head <= r.head && tail <= r.tail && GotOk(r, head, tail, got) && |got| <= room
    case GrabCas(room, head, tail, got) =>
      head <= r.head && tail <= r.tail && GotOk(r, head, tail, got) && |got| == Min(room, tail - head)
    case _ => true
  }

  ghost predicate GotOk(r: Ring, head: nat, tail: nat, got: seq<Task>) {
    && head + |got| <= tail <= |r.pushed|
    && (head == r.head ==> got == r.pushed[head..head + |got|])
  }

  ghost predicate Inv(s: State) {
    && RingOk(s.ring)
    && (forall t :: 0 <= t < |s.threads| ==> PcOk(s.ring, s.threads[t]))
    && (forall t :: 0 <= t < |s.threads| && Pushing(s.threads[t]) ==> t == OWNER)
  }

  // ---------------------------------------------------------------------------------------------
  // Every step keeps the invariant

  /** Slots of live indices, and the owner's reserved slot, survive other threads' steps. */
  ghost predicate Grows(r: Ring, r': Ring) {
    && |r'.buffer| == |r.buffer|
    && r.head <= r'.head && r.tail <= r'.tail
    && r.pushed <= r'.pushed
    && RingOk(r')
  }

  lemma PushStep(r: Ring, pc: Pc)
    requires RingOk(r) && Pushing(pc) && PcOk(r, pc)
    ensures Grows(r, ExecPush(r, pc).ring) && PcOk(ExecPush(r, pc).ring, ExecPush(r, pc).pc)
    ensures ExecPush(r, pc).ring.head == r.head
  {
    match pc
    case PushStore(task, tail, head) =>
      ModIsRemainder(|r.buffer|, tail);
      forall i | r.head <= i < r.tail ensures Slot(r, i) != Slot(r, tail) { SlotsDiffer(|r.buffer|, i, tail); }
    case PushTail(task, tail) =>
      var r' := ExecPush(r, pc).ring;
      assert r'.pushed[..r.head] == r.pushed[..r.head];
    case _ =>
  }

  /** Advancing `head_` over tasks that are the current prefix. */
  lemma TakePrefix(r: Ring, k: nat)
    requires RingOk(r) && r.head + k <= r.tail
    ensures RingOk(r.(head := r.head + k, taken := r.taken + r.pushed[r.head..r.head + k]))
  {
    assert r.pushed[..r.head + k] == r.pushed[..r.head] + r.pushed[r.head..r.head + k];
  }

  /** Loading slots: what is read is right if `head_` has not moved since it was loaded. */
  lemma ReadStep(r: Ring, pc: Pc, spurious: bool)
    requires RingOk(r) && PcOk(r, pc) && !Pushing(pc) && !pc.PopCas? && !pc.GrabCas?
    ensures ExecTake(r, pc, spurious).ring == r && PcOk(r, ExecTake(r, pc, spurious).pc)
  {
    if pc.PopSlot? {
      ModIsRemainder(|r.buffer|, pc.head);
    } else if pc.GrabCopy? {
      CopyStep(r, pc, spurious);
    }
  }

  lemma CopyStep(r: Ring, pc: Pc, spurious: bool)
    requires RingOk(r) && PcOk(r, pc) && pc.GrabCopy?
    ensures ExecTake(r, pc, spurious).ring == r && PcOk(r, ExecTake(r, pc, spurious).pc)
  {
    var head, got := pc.head, pc.got;
    ModIsRemainder(|r.buffer|, head + |got|);
    if head == r.head && head + |got| < pc.tail {
      assert r.pushed[head..head + |got| + 1] == r.pushed[head..head + |got|] + [r.pushed[head + |got|]];
    }
  }

  lemma TakeStep(r: Ring, pc: Pc, spurious: bool)
    requires RingOk(r) && !Pushing(pc) && PcOk(r, pc)
    ensures Grows(r, ExecTake(r, pc, spurious).ring)
    ensures PcOk(ExecTake(r, pc, spurious).ring, ExecTake(r, pc, spurious).pc)
    ensures ExecTake(r, pc, spurious).ring.buffer == r.buffer && ExecTake(r, pc, spurious).ring.tail == r.tail
    ensures ExecTake(r, pc, spurious).ring.pushed == r.pushed
  {
    if pc.PopCas? {
      if r.head == pc.head && !spurious {
        TakePrefix(r, 1);
        assert r.pushed[r.head..r.head + 1] == [pc.task];
      }
    } else if pc.GrabCas? {
      if r.head == pc.head && !spurious { TakePrefix(r, |pc.got|); }
    } else {
      ReadStep(r, pc, spurious);
    }
  }

  lemma GotKept(r: Ring, r': Ring, head: nat, tail: nat, got: seq<Task>)
    requires head <= r.head <= r'.head && r.pushed <= r'.pushed && GotOk(r, head, tail, got)
    ensures GotOk(r', head, tail, got)
  {
    assert r'.pushed[head..head + |got|] == r.pushed[head..head + |got|];
  }

  /** A step of another thread leaves what a thread has loaded meaningful. */
  lemma OthersKept(r: Ring, r': Ring, pc: Pc)
    requires RingOk(r) && Grows(r, r') && PcOk(r, pc)
    requires Pushing(pc) ==> r'.buffer == r.buffer && r'.tail == r.tail
    ensures PcOk(r', pc)
  {
    if pc.GrabCopy? || pc.GrabCas? {
      GotKept(r, r', pc.head, pc.tail, pc.got);
    } else if pc.PopCas? {
      assert pc.head < |r.pushed| ==> r'.pushed[pc.head] == r.pushed[pc.head];
    }
  }

  /** A step leaves what its own thread has loaded meaningful; only the owner's steps touch `buffer` and `tail_`. */
  lemma OwnStep(r: Ring, t: nat, pc: Pc, a: Act)
    requires RingOk(r) && PcOk(r, pc) && Enabled(t, pc, a) && (Pushing(pc) ==> t == OWNER)
    ensures var e := Exec(r, pc, a);
      && Grows(r, e.ring) && PcOk(e.ring, e.pc) && (Pushing(e.pc) ==> t == OWNER)
      && (t != OWNER ==> e.ring.buffer == r.buffer && e.ring.tail == r.tail)
  {
    if a.Go? {
      if Pushing(pc) { PushStep(r, pc); } else { TakeStep(r, pc, a.spurious); }
    }
  }

  lemma StepKeepsInv(s: State, t: nat, a: Act)
    requires Inv(s) && t < |s.threads| && Enabled(t, s.threads[t], a)
    ensures Inv(Step(s, t, a))
  {
    var s' := Step(s, t, a);
    OwnStep(s.ring, t, s.threads[t], a);
    forall u | 0 <= u < |s'.threads| ensures PcOk(s'.ring, s'.threads[u]) {
      if u != t { OthersKept(s.ring, s'.ring, s.threads[u]); }
    }
  }

  lemma RunKeepsInv(run: seq<State>, i: nat)
    requires IsRun(Init, Next, run) && i < |run|
    ensures Inv(run[i])
  {
    forall s, s' | Inv(s) && Next(s, s') ensures Inv(s') {
      var t: nat, a :| t < |s.threads| && |s.ring.buffer| > 0 && Enabled(t, s.threads[t], a) && s' == Step(s, t, a);
      StepKeepsInv(s, t, a);
    }
    Invariance(Init, Next, Inv, run);
  }

  // ---------------------------------------------------------------------------------------------
  // Results

  /** What a step of the ring does to the abstract queue `q`, as seen by the thread that takes it. */
  ghost predicate Linearizes(q: seq<Task>, q': seq<Task>, capacity: nat, pc: Pc, pc': Pc) {
    if !pc'.Idle? then q' == q
    else match pc'.last
      case Pushed(false) => q' == q && |q| == capacity
      case Pushed(true) => pc.PushTail? && q' == q + [pc.task] && |q'| <= capacity
      case Popped(tasks) =>
        if tasks == [] && pc.PopTail? then q == q' == []
        else
          && tasks <= q && q' == q[|tasks|..]
          && if pc.GrabCas? then pc.head <= pc.tail && |tasks| == Min(pc.room, pc.tail - pc.head) else |tasks| == 1
  }

  /** Linearizability: every step of every run either leaves the queue alone, or finishes one operation
      at that very moment: `TryPush` and `TryPop` with the answer a bounded FIFO queue gives, `Grab` with
      a prefix as long as it saw at its loads and as fits. What that says of the queue is `RoundAnswer`. */
  lemma StepLinearizes(run: seq<State>, i: nat, t: nat, a: Act)
    requires IsRun(Init, Next, run) && i < |run| && t < |run[i].threads|
    requires Enabled(t, run[i].threads[t], a) && |run[i].ring.buffer| > 0
    ensures var s' := Step(run[i], t, a);
      Linearizes(Contents(run[i].ring), Contents(s'.ring), |run[i].ring.buffer|, run[i].threads[t], s'.threads[t])
  {
    RunKeepsInv(run, i);
    var r, pc := run[i].ring, run[i].threads[t];
    if a.Go? {
      if Pushing(pc) { PushLinearizes(r, pc); } else { TakeLinearizes(r, pc, a.spurious); }
    }
  }

  lemma PushLinearizes(r: Ring, pc: Pc)
    requires RingOk(r) && Pushing(pc) && PcOk(r, pc)
    ensures Linearizes(Contents(r), Contents(ExecPush(r, pc).ring), |r.buffer|, pc, ExecPush(r, pc).pc)
  {
    PushStep(r, pc);
  }

  lemma TakeLinearizes(r: Ring, pc: Pc, spurious: bool)
    requires RingOk(r) && !Pushing(pc) && !pc.Idle? && PcOk(r, pc)
    ensures Linearizes(Contents(r), Contents(ExecTake(r, pc, spurious).ring), |r.buffer|,
                       pc, ExecTake(r, pc, spurious).pc)
  {
    if pc.PopCas? || pc.GrabCas? {
      CasLinearizes(r, pc, spurious);
    } else {
      ReadStep(r, pc, spurious);
    }
  }

  /** Taking `k` tasks removes the first `k` of the abstract queue. */
  lemma TakeFromContents(r: Ring, k: nat)
    requires RingOk(r) && r.head + k <= r.tail
    ensures Contents(r.(head := r.head + k, taken := r.taken + r.pushed[r.head..r.head + k])) == Contents(r)[k..]
    ensures r.pushed[r.head..r.head + k] == Contents(r)[..k]
  {
    assert r.pushed[r.head..r.tail][..k] == r.pushed[r.head..r.head + k];
    assert r.pushed[r.head..r.tail][k..] == r.pushed[r.head + k..r.tail];
  }

  lemma CasLinearizes(r: Ring, pc: Pc, spurious: bool)
    requires RingOk(r) && (pc.PopCas? || pc.GrabCas?) && PcOk(r, pc)
    ensures Linearizes(Contents(r), Contents(ExecTake(r, pc, spurious).ring), |r.buffer|,
                       pc, ExecTake(r, pc, spurious).pc)
  {
    if r.head == pc.head && !spurious {
      if pc.PopCas? {
        assert r.pushed[r.head..r.head + 1] == [pc.task];
        TakeFromContents(r, 1);
      } else {
        TakeFromContents(r, |pc.got|);
      }
    }
  }

  /** `pc` is in the round of `Grab` whose loads of `head_` and `tail_` ended in the state `at`. */
  ghost predicate InRound(at: State, t: nat, pc: Pc) {
    && t < |at.threads| && at.threads[t].GrabTail?
    && (pc.GrabCopy? || pc.GrabCas?)
    && pc.room == at.threads[t].room && pc.head == at.threads[t].head && pc.tail == at.ring.tail
  }

  ghost predicate SameRound(run: seq<State>, j: nat, i: nat, t: nat) {
    && j < i < |run|
    && forall k :: j < k <= i ==> t < |run[k].threads| && InRound(run[j], t, run[k].threads[t])
  }

  /** A thread gets into the copying part of a round by the load of `tail_`, and stays in that round; while
      the owner is in it, nobody pushes. */
  ghost predicate GetsInRound(s: State, s': State, t: nat)
    requires t < |s'.threads| && (s'.threads[t].GrabCopy? || s'.threads[t].GrabCas?)
  {
    var pc' := s'.threads[t];
    && t < |s.threads|
    && (t == OWNER ==> s'.ring.tail == s.ring.tail)
    && (InRound(s, t, pc') || SameLoads(s.threads[t], pc'))
  }

  ghost predicate SameLoads(pc: Pc, pc': Pc)
    requires pc'.GrabCopy? || pc'.GrabCas?
  {
    (pc.GrabCopy? || pc.GrabCas?) && pc'.room == pc.room && pc'.head == pc.head && pc'.tail == pc.tail
  }

  lemma RoundStep(s: State, u: nat, a: Act, t: nat)
    requires Inv(s) && u < |s.threads| && Enabled(u, s.threads[u], a) && t < |s.threads|
    requires var pc' := Step(s, u, a).threads[t]; pc'.GrabCopy? || pc'.GrabCas?
    ensures GetsInRound(s, Step(s, u, a), t)
  {
    if u == t && a.Go? {
      OwnRoundStep(s, t, a.spurious);
    } else if t == OWNER && a.Go? {
      TakeStep(s.ring, s.threads[u], a.spurious);
    }
  }

  lemma OwnRoundStep(s: State, t: nat, spurious: bool)
    requires Inv(s) && t < |s.threads| && !s.threads[t].Idle?
    requires var pc' := Step(s, t, Go(spurious)).threads[t]; pc'.GrabCopy? || pc'.GrabCas?
    ensures GetsInRound(s, Step(s, t, Go(spurious)), t)
  {
    if !s.threads[t].GrabTail? {
      assert s.threads[t].GrabCopy?;
      CopyStep(s.ring, s.threads[t], spurious);
    }
  }

  lemma RoundNext(s: State, s': State, t: nat)
    requires Inv(s) && Next(s, s') && t < |s'.threads| && (s'.threads[t].GrabCopy? || s'.threads[t].GrabCas?)
    ensures GetsInRound(s, s', t)
  {
    var u: nat, a :| u < |s.threads| && |s.ring.buffer| > 0 && Enabled(u, s.threads[u], a) && s' == Step(s, u, a);
    RoundStep(s, u, a, t);
  }

  lemma NotAtFirst(run: seq<State>, i: nat, t: nat)
    requires IsRun(Init, Next, run) && i < |run| && t < |run[i].threads| && !run[i].threads[t].Idle?
    ensures i > 0
  {
  }

  /** Where this round of `Grab` loaded `tail_`. */
  lemma {:induction false} LoadOf(run: seq<State>, i: nat, t: nat) returns (j: nat)
    requires IsRun(Init, Next, run) && i < |run| && t < |run[i].threads|
    requires run[i].threads[t].GrabCopy? || run[i].threads[t].GrabCas?
    ensures SameRound(run, j, i, t)
    ensures t == OWNER ==> run[j].ring.tail == run[i].ring.tail
  {
    NotAtFirst(run, i, t);
    RunKeepsInv(run, i - 1);
    RoundNext(run[i - 1], run[i], t);
    if InRound(run[i - 1], t, run[i].threads[t]) {
      j := i - 1;
    } else {
      j := LoadOf(run, i - 1, t);
      RoundGoesOn(run, j, i, t);
    }
  }

  lemma RoundGoesOn(run: seq<State>, j: nat, i: nat, t: nat)
    requires j < i < |run| && SameRound(run, j, i - 1, t) && t < |run[i].threads|
    requires run[i].threads[t].GrabCopy? || run[i].threads[t].GrabCas?
    requires SameLoads(run[i - 1].threads[t], run[i].threads[t])
    ensures SameRound(run, j, i, t)
  {
    assert InRound(run[j], t, run[i - 1].threads[t]);
  }

  lemma NextGrows(s: State, s': State)
    requires Inv(s) && Next(s, s')
    ensures Grows(s.ring, s'.ring)
  {
    var t: nat, a :| t < |s.threads| && |s.ring.buffer| > 0 && Enabled(t, s.threads[t], a) && s' == Step(s, t, a);
    if a.Go? {
      if Pushing(s.threads[t]) { PushStep(s.ring, s.threads[t]); } else { TakeStep(s.ring, s.threads[t], a.spurious); }
    }
  }

  lemma {:induction false} RunGrows(run: seq<State>, j: nat, i: nat)
    requires IsRun(Init, Next, run) && j <= i < |run|
    ensures Grows(run[j].ring, run[i].ring)
  {
    RunKeepsInv(run, i);
    if j < i {
      RunKeepsInv(run, i - 1);
      RunGrows(run, j, i - 1);
      NextGrows(run[i - 1], run[i]);
    }
  }

  /** A `Grab` whose CAS is about to succeed has what a bounded FIFO queue gives at the moment `j` at which
      this very round loaded `tail_`, and nothing has been taken since. So one that comes back with nothing
      found the ring empty then, and one that comes back short took all there was. For the owner, the only
      one who pushes, that moment is as good as now. */
  lemma RoundAnswer(run: seq<State>, i: nat, t: nat) returns (j: nat)
    requires IsRun(Init, Next, run) && i < |run| && t < |run[i].threads|
    requires run[i].threads[t].GrabCas? && run[i].threads[t].head == run[i].ring.head
    ensures SameRound(run, j, i, t)
    ensures var q, pc := Contents(run[j].ring), run[i].threads[t];
      pc.got == q[..Min(pc.room, |q|)] && q <= Contents(run[i].ring) && (t == OWNER ==> q == Contents(run[i].ring))
  {
    j := LoadOf(run, i, t);
    assert InRound(run[j], t, run[i].threads[t]);
    RunKeepsInv(run, i);
    RunKeepsInv(run, j);
    RunGrows(run, j, i);
    assert PcOk(run[j].ring, run[j].threads[t]) && PcOk(run[i].ring, run[i].threads[t]);
    GotAtLoad(run[j].ring, run[i].ring, run[i].threads[t]);
  }

  lemma GotAtLoad(r: Ring, r': Ring, pc: Pc)
    requires RingOk(r) && Grows(r, r') && pc.GrabCas? && PcOk(r', pc)
    requires pc.head <= r.head && pc.head == r'.head && pc.tail == r.tail
    ensures pc.got == Contents(r)[..Min(pc.room, |Contents(r)|)] && Contents(r) <= Contents(r')
    ensures r.tail == r'.tail ==> Contents(r) == Contents(r')
  {
    assert r.pushed == r'.pushed[..r.tail];
    assert Contents(r) == r'.pushed[pc.head..r.tail] == Contents(r')[..r.tail - r.head];
  }

  /** The answer is right at the CAS as well exactly if the buffer is full or nothing has been pushed since
      `tail_` was loaded. */
  lemma RoundExactIff(run: seq<State>, i: nat, t: nat)
    requires IsRun(Init, Next, run) && i < |run| && t < |run[i].threads|
    requires run[i].threads[t].GrabCas? && run[i].threads[t].head == run[i].ring.head
    ensures var q, pc := Contents(run[i].ring), run[i].threads[t];
      pc.got == q[..Min(pc.room, |q|)] <==> |pc.got| == pc.room || run[i].ring.tail == pc.tail
  {
    RunKeepsInv(run, i);
    assert PcOk(run[i].ring, run[i].threads[t]);
    GotAtCas(run[i].ring, run[i].threads[t]);
  }

  lemma GotAtCas(r: Ring, pc: Pc)
    requires RingOk(r) && pc.GrabCas? && PcOk(r, pc) && pc.head == r.head
    ensures pc.got == Contents(r)[..|pc.got|] && |pc.got| == Min(pc.room, pc.tail - r.head)
    ensures pc.got == Contents(r)[..Min(pc.room, |Contents(r)|)] <==> |pc.got| == pc.room || r.tail == pc.tail
  {
    assert pc.got == r.pushed[r.head..r.head + |pc.got|] == r.pushed[r.head..r.tail][..|pc.got|];
  }

  /** One more step of one thread. */
  lemma Advance(run: seq<State>, t: nat, a: Act) returns (longer: seq<State>)
    requires IsRun(Init, Next, run)
    requires var s := run[|run| - 1]; t < |s.threads| && |s.ring.buffer| > 0 && Enabled(t, s.threads[t], a)
    ensures IsRun(Init, Next, longer) && longer[|longer| - 1] == Step(run[|run| - 1], t, a)
  {
    longer := run + [Step(run[|run| - 1], t, a)];
    ExtendRun(Init, Next, run, Step(run[|run| - 1], t, a));
  }

  /** A thief loads `head_` and `tail_` of an empty ring and is about to take nothing. */
  lemma LoadsEmpty(buffer: seq<Task>, room: nat) returns (run: seq<State>)
    requires |buffer| > 0
    ensures IsRun(Init, Next, run)
    ensures run[|run| - 1]
            == State(Ring(buffer, 0, 0, [], []), [Idle(Popped([])), GrabCas(room, 0, 0, [])])
  {
    run := [State(Ring(buffer, 0, 0, [], []), [Idle(Popped([])), Idle(Popped([]))])];
    run := Advance(run, 1, Grab(room));
    run := Advance(run, 1, Go(false));
    run := Advance(run, 1, Go(false));
    run := Advance(run, 1, Go(false));
  }

  /** Then the owner pushes. So for every capacity and every buffer there is a run in which a `Grab` is about
      to come back with nothing from a ring that is not empty. */
  lemma StaleGrab(buffer: seq<Task>, room: nat, task: Task) returns (run: seq<State>)
    requires |buffer| > 0
    ensures IsRun(Init, Next, run)
    ensures var s := run[|run| - 1];
      |s.threads| == 2 && s.threads[1] == GrabCas(room, s.ring.head, 0, []) && Contents(s.ring) == [task]
  {
    run := LoadsEmpty(buffer, room);
    ModIsRemainder(|buffer|, 0);
    run := Advance(run, OWNER, TryPush(task));
    run := Advance(run, OWNER, Go(false));
    run := Advance(run, OWNER, Go(false));
    run := Advance(run, OWNER, Go(false));
    run := Advance(run, OWNER, Go(false));
  }

  /** Bounds and conservation: what has been taken is exactly what was pushed first, so no task is
      lost, duplicated or reordered, in spite of slot reuse. */
  lemma FifoOverRuns(run: seq<State>, i: nat)
    requires IsRun(Init, Next, run) && i < |run|
    ensures run[i].ring.head <= run[i].ring.tail <= run[i].ring.head + |run[i].ring.buffer|
    ensures run[i].ring.pushed == run[i].ring.taken + Contents(run[i].ring)
  {
    RunKeepsInv(run, i);
    var r := run[i].ring;
    assert r.pushed == r.pushed[..r.head] + r.pushed[r.head..r.tail];
  }
}
