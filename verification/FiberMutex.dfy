/**
 The fiber mutex and its wait queue. Each method is one section under the mutex's spin lock; a fiber
 that has to wait is parked, and the spin lock released, by the callback that runs after the switch.
 */
module FiberMutex {
  import opened Common

  ghost predicate Apart(s: seq<nat>, t: seq<nat>) { forall f :: f in s ==> f !in t }

  /** `runnable` is where `Schedule` puts fibers. */
  class WaitQueue {
    var fibers: seq<nat>
    var runnable: seq<nat>

    constructor ()
      ensures fibers == [] && runnable == []
    {
      fibers, runnable := [], [];
    }

    predicate IsEmpty()
      reads this
    {
      fibers == []
    }

    method Park(handle: nat)
      modifies this
      ensures fibers == old(fibers) + [handle] && runnable == old(runnable)
    {
      fibers := fibers + [handle];
    }

    /** Wakes the fiber that has waited longest. */
    method WakeOne()
      modifies this
      ensures old(fibers) == [] ==> fibers == [] && runnable == old(runnable)
      ensures old(fibers) != [] ==> fibers == old(fibers)[1..] && runnable == old(runnable) + [old(fibers)[0]]
    {
      if IsEmpty() {
        return;
      }
      runnable := runnable + [fibers[0]];
      fibers := fibers[1..];
    }

    method WakeAll()
      modifies this
      ensures fibers == [] && runnable == old(runnable) + old(fibers)
    {
      while !IsEmpty()
        invariant runnable + fibers == old(runnable) + old(fibers)
        decreases |fibers|
      {
        assert runnable + [fibers[0]] + fibers[1..] == runnable + fibers;
        WakeOne();
      }
    }
  }

  /** Where the fibers are. */
  datatype Snapshot = Snapshot(
    locked: bool, waiting: seq<nat>, runnable: seq<nat>, running: set<nat>, holders: set<nat>)

  datatype Action = Lock(f: nat) | TryLock(f: nat) | Unlock(f: nat) | Resume(i: nat)

  /** A running fiber takes a free mutex, or waits behind the others. */
  function Taken(s: Snapshot, f: nat): Snapshot {
    if s.locked then s.(waiting := s.waiting + [f], running := s.running - {f})
    else s.(locked := true, holders := {f})
  }

  /** What an action changes; fibers that do not run cannot act, and only a holder can unlock. */
  function After(s: Snapshot, a: Action): Snapshot {
    match a
    case Lock(f) => if f in s.running then Taken(s, f) else s
    case TryLock(f) => if f in s.running && !s.locked then s.(locked := true, holders := {f}) else s
    case Unlock(f) =>
      if f !in s.running || f !in s.holders then s
      else if s.waiting == [] then s.(locked := false, holders := {})
      else s.(locked := false, holders := {}, waiting := s.waiting[1..], runnable := s.runnable + [s.waiting[0]])
    case Resume(i) =>
      if i >= |s.runnable| then s
      else Taken(s.(runnable := s.runnable[..i] + s.runnable[i + 1..], running := s.running + {s.runnable[i]}),
                 s.runnable[i])
  }

  function AfterAll(s: Snapshot, actions: seq<Action>): Snapshot {
    if actions == [] then s else After(AfterAll(s, actions[..|actions| - 1]), actions[|actions| - 1])
  }

  /** The last three fields are where the fibers are: `all` use the mutex, `running` neither wait nor
      are scheduled to go on, `holders` are past `Lock` and have not unlocked. */
  class Mutex {
    const queue: WaitQueue
    var isLocked: bool
    const all: set<nat>
    var running: set<nat>
    var holders: set<nat>

    /** Every fiber is in exactly one place. */
    ghost predicate OnePlaceEach()
      reads this, queue
    {
      && NoDuplicates(queue.fibers) && NoDuplicates(queue.runnable) && Apart(queue.fibers, queue.runnable)
      && (forall f :: f in all <==> f in running || f in queue.fibers || f in queue.runnable)
      && (forall f :: f in running ==> f !in queue.fibers && f !in queue.runnable)
    }

    /** A free mutex with fibers waiting has one that was woken and is still to retry. */
    ghost predicate NobodyStranded()
      reads this, queue
    {
      !isLocked && queue.fibers != [] ==> queue.runnable != []
    }

    /** At most one fiber holds the mutex, and the flag tells whether one does. */
    ghost predicate Exclusive()
      reads this
    {
      (isLocked <==> holders != {}) && forall f, g :: f in holders && g in holders ==> f == g
    }

    ghost predicate Valid()
      reads this, queue
    {
      OnePlaceEach() && NobodyStranded() && Exclusive()
    }

    ghost function Snap(): Snapshot
      reads this, queue
    {
      Snapshot(isLocked, queue.fibers, queue.runnable, running, holders)
    }

    constructor (all: set<nat>)
      ensures Valid() && running == this.all == all && holders == {} && !isLocked && fresh(queue)
    {
      queue := new WaitQueue();
      isLocked := false;
      this.all, running, holders := all, all, {};
    }

    /** One round of the loop in `Lock`: takes the mutex, or waits. Either way it leaves it locked. */
    method LockRound(f: nat) returns (acquired: bool)
      requires OnePlaceEach() && Exclusive() && f in running
      modifies this`isLocked, this`running, this`holders, queue
      ensures Valid() && acquired == !old(isLocked) && isLocked
      ensures queue.runnable == old(queue.runnable)
      ensures acquired ==> holders == {f} && running == old(running) && queue.fibers == old(queue.fibers)
      ensures !acquired ==> holders == old(holders) && running == old(running) - {f}
                            && queue.fibers == old(queue.fibers) + [f]
    {
      var was := isLocked;
      isLocked := true;
      if was {
        queue.Park(f);
        running := running - {f};
        return false;
      }
      holders := holders + {f};
      return true;
    }

    method Lock(f: nat) returns (acquired: bool)
      requires Valid() && f in running
      modifies this`isLocked, this`running, this`holders, queue
      ensures Valid() && acquired == !old(isLocked) && isLocked && queue.runnable == old(queue.runnable)
      ensures holders == if acquired then {f} else old(holders)
      ensures queue.fibers == old(queue.fibers) + (if acquired then [] else [f])
      ensures Snap() == After(old(Snap()), Action.Lock(f))
    {
      acquired := LockRound(f);
    }

    /** Some scheduled fiber goes on, in the loop of its `Lock`. */
    method Resume(i: nat) returns (acquired: bool)
      requires Valid() && i < |queue.runnable|
      modifies this`isLocked, this`running, this`holders, queue
      ensures Valid() && acquired == !old(isLocked) && isLocked
      ensures holders == if acquired then {old(queue.runnable)[i]} else old(holders)
      ensures queue.fibers == old(queue.fibers) + (if acquired then [] else [old(queue.runnable)[i]])
      ensures queue.runnable == old(queue.runnable)[..i] + old(queue.runnable)[i + 1..]
      ensures Snap() == After(old(Snap()), Action.Resume(i))
    {
      var f := queue.runnable[i];
      ghost var was := queue.runnable;
      queue.runnable := queue.runnable[..i] + queue.runnable[i + 1..];
      running := running + {f};
      assert forall g :: g in was <==> g in queue.runnable || g == f;
      acquired := LockRound(f);
    }

    method TryLock(f: nat) returns (acquired: bool)
      requires Valid() && f in running
      modifies this`isLocked, this`holders
      ensures Valid() && acquired == !old(isLocked) && isLocked
      ensures holders == if acquired then {f} else old(holders)
      ensures Snap() == After(old(Snap()), Action.TryLock(f))
    {
      acquired := !isLocked;
      isLocked := true;
      if acquired {
        holders := holders + {f};
      }
    }

    /** The holder lets go, and the fiber that has waited longest is scheduled. */
    method Unlock(f: nat)
      requires Valid() && f in running && f in holders
      modifies this`isLocked, this`holders, queue
      ensures Valid() && holders == {} && !isLocked
      ensures old(queue.fibers) == [] ==> queue.fibers == [] && queue.runnable == old(queue.runnable)
      ensures old(queue.fibers) != [] ==>
        queue.fibers == old(queue.fibers)[1..] && queue.runnable == old(queue.runnable) + [old(queue.fibers)[0]]
      ensures Snap() == After(old(Snap()), Action.Unlock(f))
    {
      isLocked := false;
      ghost var was := queue.fibers;
      assert was != [] ==> was[0] in was;
      queue.WakeOne();
      assert forall g :: g in was <==> g in queue.fibers || (was != [] && g == was[0]);
      holders := holders - {f};
    }
  }

  /** Whole runs: whatever the fibers do, in whatever order the scheduler resumes them, at most one is
      past `Lock` without having unlocked, each is in exactly one place, and none is stranded. */
  method Drive(mutex: Mutex, actions: seq<Action>)
    requires mutex.Valid()
    modifies mutex`isLocked, mutex`running, mutex`holders, mutex.queue
    ensures mutex.OnePlaceEach() && mutex.NobodyStranded() && mutex.Exclusive()
    ensures mutex.Snap() == AfterAll(old(mutex.Snap()), actions)
  {
    for k := 0 to |actions|
      invariant mutex.Valid() && mutex.Snap() == AfterAll(old(mutex.Snap()), actions[..k])
    {
      assert actions[..k + 1][..k] == actions[..k];
      var acquired;
      match actions[k]
      case Lock(f) => if f in mutex.running { acquired := mutex.Lock(f); }
      case TryLock(f) => if f in mutex.running { acquired := mutex.TryLock(f); }
      case Unlock(f) => if f in mutex.running && f in mutex.holders { mutex.Unlock(f); }
      case Resume(i) => if i < |mutex.queue.runnable| { acquired := mutex.Resume(i); }
    }
    assert actions[..|actions|] == actions;
  }
}
