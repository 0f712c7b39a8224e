/**
 `WorkStealingTaskQueue` as one thread runs it while no other thread touches it: a bounded FIFO queue
 over a fixed array. `RingMachine` treats the same operations under interference.
 */
module WorkStealingQueue {
  import opened RingMachine
  import RingSafety

  /** The slot of the `i`-th queued task. */
  function Place(head: nat, i: nat, capacity: nat): nat
    requires capacity > 0
  {
    (head + i) % capacity
  }

  class WorkStealingTaskQueue {
    const buffer: array<Task>
    var head: nat
    var tail: nat

    /** The queued tasks, oldest first. */
    ghost var contents: seq<Task>

    ghost predicate Valid()
      reads this, buffer
    {
      && buffer.Length > 0 && head <= tail <= head + buffer.Length
      && |contents| == tail - head
      && forall i :: 0 <= i < |contents| ==> buffer[Place(head, i, buffer.Length)] == contents[i]
    }

    constructor (capacity: nat)
      requires capacity > 0
      ensures Valid() && fresh(buffer) && buffer.Length == capacity && contents == []
    {
      buffer := new Task[capacity](_ => 0);
      head, tail, contents := 0, 0, [];
    }

    method TryPush(task: Task) returns (ok: bool)
      requires Valid()
      modifies this`tail, this`contents, buffer
      ensures Valid()
      ensures ok == (|old(contents)| < buffer.Length)
      ensures contents == if ok then old(contents) + [task] else old(contents)
    {
      if head + buffer.Length <= tail {
        return false;
      }
      RingSafety.ModIsRemainder(buffer.Length, tail);
      forall i | 0 <= i < |contents| ensures Place(head, i, buffer.Length) != tail % buffer.Length {
        RingSafety.SlotsDiffer(buffer.Length, head + i, tail);
        RingSafety.ModIsRemainder(buffer.Length, head + i);
      }
      buffer[Mod(buffer.Length, tail)] := task;
      tail := tail + 1;
      contents := contents + [task];
      ok := true;
    }

    /** Takes the first tasks off, as the CAS on `head_` does. */
    method Advance(h: nat, got: nat)
      requires Valid() && h == head && got <= |contents|
      modifies this`head, this`contents
      ensures Valid() && contents == old(contents)[got..]
    {
      var next := h + got;
      forall i | 0 <= i < |contents| - got ensures buffer[Place(next, i, buffer.Length)] == contents[got..][i] {
        assert next + i == h + (got + i);
        assert buffer[Place(h, got + i, buffer.Length)] == contents[got + i];
      }
      head := next;
      contents := contents[got..];
    }

    /** `spurious` is how often the weak CAS on `head_` fails before it succeeds. */
    method TryPop(spurious: nat) returns (popped: bool, task: Task)
      requires Valid()
      modifies this`head, this`contents
      ensures Valid()
      ensures popped == (old(contents) != [])
      ensures popped ==> task == old(contents)[0] && contents == old(contents)[1..]
      ensures !popped ==> contents == []
    {
      var failures := spurious;
      popped, task := false, 0;
      while true
        invariant Valid() && contents == old(contents) && !popped
        decreases failures
      {
        var h, t := head, tail;
        if h == t {
          return;
        }
        RingSafety.ModIsRemainder(buffer.Length, h);
        task := buffer[Mod(buffer.Length, h)];
        assert task == buffer[Place(h, 0, buffer.Length)] == contents[0];
        if failures == 0 {
          Advance(h, 1);
          popped := true;
          return;
        }
        failures := failures - 1;
      }
    }

    /** The copying loop of `Grab`: slots from `head` on, as many as there are and as fit. */
    method CopyOut(out: array<Task>, room: nat) returns (got: nat)
      requires Valid() && out != buffer && room <= out.Length
      modifies out
      ensures got == if room < |contents| then room else |contents|
      ensures out[..got] == contents[..got]
    {
      var i := head;
      while i < tail && i - head < room
        invariant head <= i <= tail && i - head <= room
        invariant out[..i - head] == contents[..i - head]
      {
        RingSafety.ModIsRemainder(buffer.Length, i);
        assert buffer[Place(head, i - head, buffer.Length)] == contents[i - head];
        out[i - head] := buffer[Mod(buffer.Length, i)];
        i := i + 1;
      }
      got := i - head;
    }

    /** Moves the first tasks into the first `room` places of `out`. */
    method Grab(out: array<Task>, room: nat, spurious: nat) returns (got: nat)
      requires Valid() && out != buffer && room <= out.Length
      modifies this`head, this`contents, out
      ensures Valid()
      ensures got == if room < |old(contents)| then room else |old(contents)|
      ensures out[..got] == old(contents)[..got]
      ensures contents == old(contents)[got..]
    {
      var failures := spurious;
      got := CopyOut(out, room);
      while failures > 0
        invariant Valid() && head == old(head) && contents == old(contents)
        invariant got == if room < |contents| then room else |contents|
        invariant out[..got] == contents[..got]
      {
        got := CopyOut(out, room);
        failures := failures - 1;
      }
      Advance(head, got);
    }

    /** Exact while no other thread takes tasks; otherwise the space can only be larger. */
    method SpaceLowerBound() returns (space: nat)
      requires Valid()
      ensures space == buffer.Length - |contents|
    {
      space := buffer.Length - (tail - head);
    }
  }
}
