/**
 The ring behind a buffered channel: one slot more than its capacity, and head and tail that wrap.
 A slot is raw storage or holds a live object.
 */
module CircularBuffers {
  import opened Remainders

  datatype Slot<T> = Raw | Live(value: T)

  /** `i` steps after `head` on a ring of `size` slots. */
  function Wrap(head: nat, i: nat, size: nat): (k: nat)
    requires head < size && i < size
    ensures k < size
  {
    if head + i < size then head + i else head + i - size
  }

  /** Wrapping is the remainder that the source computes. */
  lemma WrapIsRemainder(head: nat, i: nat, size: nat)
    requires head < size && i < size
    ensures Wrap(head, i, size) == (head + i) % size
  {
    RemainderUnique(head + i, size, if head + i < size then 0 else 1, Wrap(head, i, size));
  }

  /** Different steps from the head lead to different slots. */
  lemma WrapInjective(head: nat, i: nat, j: nat, size: nat)
    requires head < size && i < size && j < size && i != j
    ensures Wrap(head, i, size) != Wrap(head, j, size)
  {
  }

  class CircularBuffer<T> {
    const size: nat
    var tail: nat
    var head: nat
    const data: array<Slot<T>>

    /** What is in the buffer, front first. */
    ghost var contents: seq<T>

    /** The slots from the head up to the tail hold the contents, all others are raw. */
    ghost predicate Valid()
      reads this, data
    {
      && 0 < size == data.Length && head < size && tail < size
      && |contents| == Size()
      && (forall i :: 0 <= i < size ==>
            data[Wrap(head, i, size)] == if i < |contents| then Live(contents[i]) else Raw)
    }

    constructor (capacity: nat)
      ensures Valid() && contents == [] && Capacity() == capacity && fresh(data)
    {
      size := capacity + 1;
      data := new Slot<T>[capacity + 1](_ => Raw);
      tail, head, contents := 0, 0, [];
    }

    function Size(): nat
      requires head < size && tail < size
      reads this
    {
      if tail < head then tail + size - head else tail - head
    }

    function Capacity(): nat
      requires 0 < size
    {
      size - 1
    }

    predicate IsFull()
      requires head < size && tail < size
      reads this
    {
      Size() == Capacity()
    }

    predicate IsEmpty()
      requires head < size && tail < size
      reads this
    {
      Size() == 0
    }

    method Increment(val: nat) returns (next: nat)
      requires val < size
      ensures next == if val + 1 < size then val + 1 else 0
    {
      next := (val + 1) % size;
      if size > 1 { WrapIsRemainder(val, 1, size); }
    }

    /** The tail is where the next element goes. */
    lemma TailSlot()
      requires Valid()
      ensures tail == Wrap(head, Size(), size)
    {
    }

    method Emplace(value: T)
      requires Valid() && !IsFull()
      modifies this`tail, this`contents, data
      ensures Valid() && contents == old(contents) + [value]
    {
      TailSlot();
      forall i | 0 <= i < size && i != |contents| ensures Wrap(head, i, size) != tail {
        WrapInjective(head, i, |contents|, size);
      }
      var pos := tail;
      tail := Increment(tail);
      data[pos] := Live(value);
      contents := contents + [value];
    }

    method Pop() returns (ret: T)
      requires Valid() && !IsEmpty()
      modifies this`head, this`contents, data
      ensures Valid() && old(contents) == [ret] + contents
    {
      ghost var was := head;
      assert Wrap(head, 0, size) == head;
      var pos := head;
      ret := data[pos].value;
      data[pos] := Raw;
      head := Increment(head);
      contents := contents[1..];
      forall i | 0 <= i < size - 1
        ensures Wrap(head, i, size) == Wrap(was, i + 1, size) && Wrap(head, i, size) != was
      {
        WrapInjective(was, i + 1, 0, size);
      }
      assert Wrap(head, size - 1, size) == was;
    }

    /** The destructor: destroys every element once, in order, and leaves only raw storage. */
    method Destroy() returns (ghost destroyed: seq<T>)
      requires Valid()
      modifies data
      ensures destroyed == old(contents)
      ensures forall k :: 0 <= k < size ==> data[k].Raw?
    {
      destroyed := [];
      var i := head;
      while i != tail
        invariant |destroyed| <= Size() && i == Wrap(head, |destroyed|, size)
        invariant destroyed == old(contents)[..|destroyed|]
        invariant forall k :: 0 <= k < size ==>
                    data[Wrap(head, k, size)] == if k < |destroyed| then Raw else old(data[Wrap(head, k, size)])
        decreases Size() - |destroyed|
      {
        ghost var d := |destroyed|;
        destroyed := destroyed + [data[i].value];
        forall k | 0 <= k < size && k != d ensures Wrap(head, k, size) != i { WrapInjective(head, k, d, size); }
        data[i] := Raw;
        i := Increment(i);
      }
      forall k | 0 <= k < size ensures data[k].Raw? {
        var j := if k >= head then k - head else k + size - head;
        assert Wrap(head, j, size) == k;
      }
    }
  }
}
