/**
 Fiber channels. `Chan` is an abstract channel of some capacity; the buffered channel and the
 rendezvous channel, which is the case of capacity 0, both behave like it.

 Each method up to its return or its suspension is one section under the channel's spin lock: a
 fiber that suspends is parked, and the lock released, by the callback that runs after the switch.
 */
module Channels {
  import opened CircularBuffers
  import opened Common

  // ---------------------------------------------------------------------------------------------
  // The abstract channel

  /** All values sent so far, in the order in which the senders entered, and how many receivers have
      entered. */
  datatype Chan<T> = Chan(capacity: nat, sends: seq<T>, receives: nat)

  function Sent<T>(ch: Chan<T>, value: T): Chan<T> { ch.(sends := ch.sends + [value]) }

  function Received<T>(ch: Chan<T>): Chan<T> { ch.(receives := ch.receives + 1) }

  predicate SendBlocks<T>(ch: Chan<T>) { |ch.sends| >= ch.receives + ch.capacity }

  predicate ReceiveBlocks<T>(ch: Chan<T>) { ch.receives >= |ch.sends| }

  /** How many sends have been received or found room in the buffer. */
  function Stored<T>(ch: Chan<T>): nat {
    if |ch.sends| < ch.receives + ch.capacity then |ch.sends| else ch.receives + ch.capacity
  }

  /** The values that are neither received nor held by a blocked sender. */
  function Buffered<T>(ch: Chan<T>): seq<T> {
    if ch.receives <= |ch.sends| then ch.sends[ch.receives..Stored(ch)] else []
  }

  /** The values of blocked senders. */
  function Blocked<T>(ch: Chan<T>): seq<T> { ch.sends[Stored(ch)..] }

  /** How many receivers wait. */
  function Hungry<T>(ch: Chan<T>): nat { if ch.receives > |ch.sends| then ch.receives - |ch.sends| else 0 }

  function Clamp(x: int, low: int, high: int): int { if x < low then low else if x > high then high else x }

  /** With S sends and R receives entered, and capacity c. */
  lemma Counts<T>(ch: Chan<T>)
    ensures var s, r, c := |ch.sends|, ch.receives, ch.capacity;
      && |Buffered(ch)| == Clamp(s - r, 0, c)
      && |Blocked(ch)| == (if s - r - c > 0 then s - r - c else 0)
      && Hungry(ch) == (if r - s > 0 then r - s else 0)
      && !(Blocked(ch) != [] && Hungry(ch) > 0)
  {
  }

  // ---------------------------------------------------------------------------------------------
  // Parked fibers

  /** A parked sender with the value it sends, or a parked receiver with the place for its value.
      `ticket` is which send or receive it is. */
  class WaiterNode<T> {
    const fiber: nat
    var message: Option<T>
    ghost const ticket: nat

    constructor (fiber: nat, message: Option<T>, ghost ticket: nat)
      ensures this.fiber == fiber && this.message == message && this.ticket == ticket
    {
      this.fiber, this.message, this.ticket := fiber, message, ticket;
    }
  }

  datatype States = Nobody | Senders | Receivers

  function StateOf<T>(ch: Chan<T>): States {
    if Blocked(ch) != [] then Senders else if Hungry(ch) > 0 then Receivers else Nobody
  }

  /** The waiters are exactly the blocked senders with their values, or the hungry receivers, in the
      order in which they entered, and `state` says which. */
  ghost predicate WaitersOk<T(!new)>(ch: Chan<T>, state: States, waiters: seq<WaiterNode<T>>)
    reads set n | n in waiters
  {
    && state == StateOf(ch)
    && |waiters| == |Blocked(ch)| + Hungry(ch)
    && (forall i, j :: 0 <= i < j < |waiters| ==> waiters[i] != waiters[j])
    && (state.Senders? ==> forall i :: 0 <= i < |waiters| ==>
          waiters[i].message == Some(Blocked(ch)[i]) && waiters[i].ticket == Stored(ch) + i)
    && (state.Receivers? ==> forall i :: 0 <= i < |waiters| ==>
          waiters[i].message == None && waiters[i].ticket == |ch.sends| + i)
  }

  /** Receivers that have been woken hold the value of the send with their own number. */
  ghost predicate ServedOk<T(!new)>(ch: Chan<T>, served: set<WaiterNode<T>>)
    reads served
  {
    forall n :: n in served ==> n.ticket < |ch.sends| && n.message == Some(ch.sends[n.ticket])
  }

  /** One more waiter, the fiber, at the end. */
  predicate IsLast<T>(waiters: seq<WaiterNode<T>>, was: seq<WaiterNode<T>>, fiber: nat) {
    waiters != [] && waiters[..|waiters| - 1] == was && waiters[|waiters| - 1].fiber == fiber
  }

  /** The fiber that is scheduled, and the waiters that remain, when the first one is served. */
  function Woken<T>(serve: bool, waiters: seq<WaiterNode<T>>): seq<nat> {
    if serve && waiters != [] then [waiters[0].fiber] else []
  }

  function Remaining<T>(serve: bool, waiters: seq<WaiterNode<T>>): seq<WaiterNode<T>> {
    if serve && waiters != [] then waiters[1..] else waiters
  }

  datatype Reply<T> = Now(value: T) | Parked(node: WaiterNode<T>)

  /** What an operation shows to the fibers. */
  datatype View<T> = View(ch: Chan<T>, waiters: seq<WaiterNode<T>>, scheduled: seq<nat>)

  // ---------------------------------------------------------------------------------------------
  // What one more send or receive changes

  lemma SendToHungry<T>(ch: Chan<T>, val: T)
    requires Hungry(ch) > 0
    ensures var ch' := Sent(ch, val);
      Blocked(ch') == Blocked(ch) == [] && Buffered(ch') == Buffered(ch) == [] && Hungry(ch') == Hungry(ch) - 1
  {
  }

  lemma SendThatBlocks<T>(ch: Chan<T>, val: T)
    requires SendBlocks(ch) && Hungry(ch) == 0
    ensures var ch' := Sent(ch, val);
      && Blocked(ch') == Blocked(ch) + [val] && Stored(ch') == Stored(ch)
      && Buffered(ch') == Buffered(ch) && Hungry(ch') == 0
      && |ch.sends| == Stored(ch) + |Blocked(ch)|
  {
  }

  lemma SendThatIsStored<T>(ch: Chan<T>, val: T)
    requires !SendBlocks(ch) && Hungry(ch) == 0
    ensures var ch' := Sent(ch, val);
      Buffered(ch') == Buffered(ch) + [val] && Blocked(ch') == Blocked(ch) == [] && Hungry(ch') == 0
  {
  }

  lemma ReceiveThatBlocks<T>(ch: Chan<T>)
    requires ReceiveBlocks(ch) && Blocked(ch) == []
    ensures var ch' := Received(ch);
      Buffered(ch') == Buffered(ch) == [] && Blocked(ch') == [] && Hungry(ch') == Hungry(ch) + 1
  {
  }

  lemma ReceiveStored<T>(ch: Chan<T>)
    requires !ReceiveBlocks(ch) && Blocked(ch) == []
    ensures var ch' := Received(ch);
      && Buffered(ch) == [ch.sends[ch.receives]] + Buffered(ch')
      && Blocked(ch') == [] && Hungry(ch') == Hungry(ch) == 0
  {
  }

  /** The first blocked sender's value moves into the room that the received one leaves; without a
      buffer it is the received one. */
  lemma ReceiveFromSenders<T>(ch: Chan<T>)
    requires Blocked(ch) != []
    ensures !ReceiveBlocks(ch) && Hungry(ch) == Hungry(Received(ch)) == 0
    ensures Stored(Received(ch)) == Stored(ch) + 1 && Blocked(Received(ch)) == Blocked(ch)[1..]
    ensures Buffered(ch) + [Blocked(ch)[0]] == [ch.sends[ch.receives]] + Buffered(Received(ch))
    ensures |Buffered(ch)| == ch.capacity
  {
    var s, r, k := ch.sends, ch.receives, Stored(ch);
    assert s[r..k] + [s[k]] == s[r..k + 1] == [s[r]] + s[r + 1..k + 1];
  }

  lemma Same<T>(x: T, s: seq<T>, y: T, t: seq<T>)
    requires [x] + s == [y] + t
    ensures x == y && s == t
  {
    assert ([x] + s)[0] == ([y] + t)[0] && ([x] + s)[1..] == ([y] + t)[1..];
  }

  lemma Shift<T>(x: T, s: seq<T>, last: T, y: T, t: seq<T>)
    requires ([x] + s) + [last] == [y] + t
    ensures x == y && s + [last] == t
  {
    assert ([x] + s) + [last] == [x] + (s + [last]);
    Same(x, s + [last], y, t);
  }

  /** The same with the received value already taken out of the buffer. */
  lemma MovesUp<T>(ch: Chan<T>, res: T, rest: seq<T>)
    requires Blocked(ch) != [] && ch.capacity > 0 && [res] + rest == Buffered(ch)
    ensures ch.receives < |ch.sends| && res == ch.sends[ch.receives] && |rest| < ch.capacity
    ensures rest + [Blocked(ch)[0]] == Buffered(Received(ch))
  {
    ReceiveFromSenders(ch);
    Shift(res, rest, Blocked(ch)[0], ch.sends[ch.receives], Buffered(Received(ch)));
  }

  // ---------------------------------------------------------------------------------------------
  // The list of waiters

  /** A send with receivers waiting: the first of them has its number, and the others go on waiting. */
  lemma FirstServed<T(!new)>(ch: Chan<T>, val: T, waiters: seq<WaiterNode<T>>)
    requires WaitersOk(ch, Receivers, waiters)
    ensures waiters != [] && waiters[0].ticket == |ch.sends| && waiters[0] !in waiters[1..]
    ensures WaitersOk(Sent(ch, val), if |waiters| == 1 then Nobody else Receivers, waiters[1..])
  {
    SendToHungry(ch, val);
  }

  /** `waiters_` and `state_`, which both channels treat alike, and the fibers scheduled so far. */
  class WaitList<T(!new)> {
    var waiters: seq<WaiterNode<T>>
    var state: States
    var scheduled: seq<nat>
    ghost var ch: Chan<T>
    ghost var served: set<WaiterNode<T>>

    ghost predicate Valid()
      reads this, waiters, served
    {
      && WaitersOk(ch, state, waiters) && ServedOk(ch, served)
      && (forall n :: n in waiters ==> n !in served)
    }

    ghost function Parked(): set<WaiterNode<T>>
      reads this
    {
      set n | n in waiters
    }

    ghost function Seen(): View<T>
      reads this
    {
      View(ch, waiters, scheduled)
    }

    /** The receivers that wait. */
    ghost function Waiting(): set<WaiterNode<T>>
      reads this
    {
      if state.Receivers? then Parked() else {}
    }

    constructor (capacity: nat)
      ensures Valid() && ch == Chan(capacity, [], 0) && scheduled == [] && waiters == [] && served == {}
    {
      waiters, state, scheduled := [], Nobody, [];
      ch, served := Chan(capacity, [], 0), {};
    }

    /** A sender hands its value to the first waiting receiver. */
    method ServeReceiver(val: T)
      requires Valid() && state.Receivers?
      modifies this, waiters
      ensures Valid() && ch == Sent(old(ch), val)
      ensures scheduled == old(scheduled) + [old(waiters)[0].fiber] && waiters == old(waiters)[1..]
      ensures served == old(served) + {old(waiters)[0]} && old(Waiting()) <= Waiting() + served
    {
      FirstServed(ch, val, waiters);
      var receiver := waiters[0];
      waiters := waiters[1..];
      receiver.message := Some(val);
      scheduled := scheduled + [receiver.fiber];
      if waiters == [] {
        state := Nobody;
      }
      ch, served := Sent(ch, val), served + {receiver};
      assert old(waiters) == [receiver] + waiters;
    }

    method ParkSender(val: T, fiber: nat)
      requires Valid() && SendBlocks(ch) && Hungry(ch) == 0
      modifies this
      ensures Valid() && ch == Sent(old(ch), val) && scheduled == old(scheduled) && served == old(served)
      ensures IsLast(waiters, old(waiters), fiber) && fresh(waiters[|waiters| - 1])
    {
      SendThatBlocks(ch, val);
      var sender := new WaiterNode<T>(fiber, Some(val), |ch.sends|);
      waiters := waiters + [sender];
      state := Senders;
      ch := Sent(ch, val);
    }

    method ParkReceiver(fiber: nat) returns (node: WaiterNode<T>)
      requires Valid() && ReceiveBlocks(ch) && Blocked(ch) == []
      modifies this
      ensures Valid() && ch == Received(old(ch)) && scheduled == old(scheduled) && served == old(served)
      ensures waiters == old(waiters) + [node] && node.fiber == fiber && node.ticket == old(ch.receives) && fresh(node)
      ensures node in Waiting()
    {
      ReceiveThatBlocks(ch);
      node := new WaiterNode<T>(fiber, None, ch.receives);
      waiters := waiters + [node];
      state := Receivers;
      ch := Received(ch);
    }

    /** A receiver takes the value of the first waiting sender. */
    method TakeSender() returns (val: T)
      requires Valid() && state.Senders?
      modifies this
      ensures Valid() && ch == Received(old(ch)) && val == Blocked(old(ch))[0] && served == old(served)
      ensures scheduled == old(scheduled) + [old(waiters)[0].fiber] && waiters == old(waiters)[1..]
    {
      ReceiveFromSenders(ch);
      var sender := waiters[0];
      waiters := waiters[1..];
      val := sender.message.value;
      scheduled := scheduled + [sender.fiber];
      if waiters == [] {
        state := Nobody;
      }
      ch := Received(ch);
    }

    /** A value passes through the buffer, with no fiber parked or woken. */
    ghost method PassThrough(next: Chan<T>)
      requires Valid() && Blocked(ch) == Blocked(next) == [] && Hungry(ch) == Hungry(next) == 0
      requires ch.sends <= next.sends
      modifies this`ch
      ensures Valid() && ch == next
    {
      ch := next;
    }

    /** What a woken receiver returns: the value of the send with its own number. */
    method Resume(node: WaiterNode<T>) returns (val: T)
      requires Valid() && node in served
      ensures node.ticket < |ch.sends| && val == ch.sends[node.ticket]
    {
      val := node.message.value;
    }
  }

  // ---------------------------------------------------------------------------------------------
  // The two channels

  class BufferedChannelState<T(!new)> {
    const buffer: CircularBuffer<T>
    const list: WaitList<T>

    ghost predicate Valid()
      reads buffer, buffer.data, list, list.waiters, list.served
    {
      && buffer.Valid() && buffer.Capacity() == list.ch.capacity > 0
      && list.Valid()
      && buffer.contents == Buffered(list.ch)
    }

    /** How many values are stored and how many fibers are parked, and that `state_` says so. */
    lemma Census()
      requires Valid()
      ensures var s, r, c := |list.ch.sends|, list.ch.receives, buffer.Capacity();
        && |buffer.contents| == Clamp(s - r, 0, c)
        && |list.waiters| == Clamp(s - r - c, 0, s) + Clamp(r - s, 0, r)
        && (list.state.Senders? <==> s > r + c) && (list.state.Receivers? <==> r > s)
    {
      Counts(list.ch);
    }

    constructor (capacity: nat)
      requires capacity > 0
      ensures Valid() && list.ch == Chan(capacity, [], 0) && list.scheduled == [] && list.waiters == []
      ensures fresh(list) && fresh(buffer) && fresh(buffer.data)
    {
      buffer := new CircularBuffer<T>(capacity);
      list := new WaitList<T>(capacity);
    }

    /** The fiber suspends exactly if the abstract channel says so; a waiting receiver is served. */
    method Send(val: T, fiber: nat) returns (parked: bool)
      requires Valid()
      modifies list, list.waiters, buffer, buffer.data
      ensures Valid() && list.ch == Sent(old(list.ch), val) && parked == SendBlocks(old(list.ch))
      ensures list.scheduled == old(list.scheduled) + Woken(old(list.state).Receivers?, old(list.waiters))
      ensures list.served == old(list.served) + (if old(list.state).Receivers? then {old(list.waiters)[0]} else {})
      ensures old(list.Waiting()) <= list.Waiting() + list.served
      ensures !parked ==> list.waiters == Remaining(old(list.state).Receivers?, old(list.waiters))
      ensures parked ==> IsLast(list.waiters, old(list.waiters), fiber) && fresh(list.waiters[|list.waiters| - 1])
    {
      if list.state == Receivers {
        SendToHungry(list.ch, val);
        list.ServeReceiver(val);
        parked := false;
      } else {
        parked := SendUnserved(val, fiber);
      }
    }

    /** The part of `Send` without a waiting receiver. */
    method SendUnserved(val: T, fiber: nat) returns (parked: bool)
      requires Valid() && !list.state.Receivers?
      modifies list, buffer, buffer.data
      ensures Valid() && list.ch == Sent(old(list.ch), val) && parked == SendBlocks(old(list.ch))
      ensures list.scheduled == old(list.scheduled) && list.served == old(list.served)
      ensures !parked ==> list.waiters == old(list.waiters)
      ensures parked ==> IsLast(list.waiters, old(list.waiters), fiber) && fresh(list.waiters[|list.waiters| - 1])
    {
      if buffer.IsFull() {
        SendThatBlocks(list.ch, val);
        list.ParkSender(val, fiber);
        return true;
      }
      StoreValue(val);
      return false;
    }

    /** The part of `Send` for a buffer with room. */
    method StoreValue(val: T)
      requires Valid() && !list.state.Receivers? && |buffer.contents| < buffer.Capacity()
      modifies list`ch, buffer, buffer.data
      ensures Valid() && list.ch == Sent(old(list.ch), val) && !SendBlocks(old(list.ch))
    {
      SendThatIsStored(list.ch, val);
      buffer.Emplace(val);
      list.PassThrough(Sent(list.ch, val));
    }

    /** The first blocked sender's value moves into the room that a receiver has just made. */
    method Refill(ghost res: T)
      requires buffer.Valid() && buffer.Capacity() == list.ch.capacity > 0
      requires list.Valid() && list.state.Senders?
      requires [res] + buffer.contents == Buffered(list.ch)
      modifies list, buffer, buffer.data
      ensures Valid() && list.ch == Received(old(list.ch))
      ensures res == list.ch.sends[old(list.ch.receives)] && list.served == old(list.served)
      ensures list.scheduled == old(list.scheduled) + [old(list.waiters)[0].fiber]
      ensures list.waiters == old(list.waiters)[1..]
    {
      ghost var was := list.ch;
      MovesUp(was, res, buffer.contents);
      var message := list.TakeSender();
      buffer.Emplace(message);
    }

    /** The part of `Receive` for a buffer that is not empty. */
    method TakeStored() returns (res: T)
      requires Valid() && !buffer.IsEmpty()
      modifies list, buffer, buffer.data
      ensures Valid() && list.ch == Received(old(list.ch))
      ensures res == list.ch.sends[old(list.ch.receives)] && list.served == old(list.served)
      ensures list.scheduled == old(list.scheduled) + Woken(old(list.state).Senders?, old(list.waiters))
      ensures list.waiters == Remaining(old(list.state).Senders?, old(list.waiters))
    {
      ghost var was := list.ch;
      res := buffer.Pop();
      if list.state == Senders {
        Refill(res);
      } else {
        ReceiveStored(was);
        Same(res, buffer.contents, was.sends[was.receives], Buffered(Received(was)));
        list.PassThrough(Received(was));
      }
    }

    /** The k-th receive to enter gets the k-th send's value: now, or when its node is served. */
    method Receive(fiber: nat) returns (reply: Reply<T>)
      requires Valid()
      modifies list, buffer, buffer.data
      ensures Valid() && list.ch == Received(old(list.ch)) && reply.Parked? == ReceiveBlocks(old(list.ch))
      ensures reply.Now? ==> reply.value == list.ch.sends[old(list.ch.receives)]
      ensures old(list.Waiting()) <= list.Waiting() && (reply.Parked? ==> reply.node in list.Waiting())
      ensures reply.Now? ==> list.waiters == Remaining(old(list.state).Senders?, old(list.waiters))
      ensures reply.Parked? ==> list.waiters == old(list.waiters) + [reply.node] && reply.node.fiber == fiber
                                && reply.node.ticket == old(list.ch.receives) && fresh(reply.node)
      ensures list.scheduled == old(list.scheduled) + Woken(old(list.state).Senders?, old(list.waiters))
      ensures list.served == old(list.served)
    {
      if buffer.IsEmpty() {
        var node := list.ParkReceiver(fiber);
        ReceiveThatBlocks(old(list.ch));
        return Parked(node);
      }
      var res := TakeStored();
      return Now(res);
    }
  }

  class RendezvousChannelState<T(!new)> {
    const list: WaitList<T>

    ghost predicate Valid()
      reads list, list.waiters, list.served
    {
      list.Valid() && list.ch.capacity == 0
    }

    lemma Census()
      requires Valid()
      ensures var s, r := |list.ch.sends|, list.ch.receives;
        && |list.waiters| == Clamp(s - r, 0, s) + Clamp(r - s, 0, r)
        && (list.state.Senders? <==> s > r) && (list.state.Receivers? <==> r > s)
    {
      Counts(list.ch);
    }

    constructor ()
      ensures Valid() && list.ch == Chan(0, [], 0) && list.scheduled == [] && list.waiters == [] && fresh(list)
    {
      list := new WaitList<T>(0);
    }

    method Send(val: T, fiber: nat) returns (parked: bool)
      requires Valid()
      modifies list, list.waiters
      ensures Valid() && list.ch == Sent(old(list.ch), val) && parked == SendBlocks(old(list.ch))
      ensures list.scheduled == old(list.scheduled) + Woken(old(list.state).Receivers?, old(list.waiters))
      ensures list.served == old(list.served) + (if old(list.state).Receivers? then {old(list.waiters)[0]} else {})
      ensures old(list.Waiting()) <= list.Waiting() + list.served
      ensures !parked ==> list.waiters == Remaining(old(list.state).Receivers?, old(list.waiters))
      ensures parked ==> IsLast(list.waiters, old(list.waiters), fiber) && fresh(list.waiters[|list.waiters| - 1])
    {
      if list.state == Receivers {
        list.ServeReceiver(val);
        parked := false;
      } else {
        list.ParkSender(val, fiber);
        parked := true;
      }
    }

    method Receive(fiber: nat) returns (reply: Reply<T>)
      requires Valid()
      modifies list
      ensures Valid() && list.ch == Received(old(list.ch)) && reply.Parked? == ReceiveBlocks(old(list.ch))
      ensures reply.Now? ==> reply.value == list.ch.sends[old(list.ch.receives)]
      ensures old(list.Waiting()) <= list.Waiting() && (reply.Parked? ==> reply.node in list.Waiting())
      ensures reply.Now? ==> list.waiters == Remaining(old(list.state).Senders?, old(list.waiters))
      ensures reply.Parked? ==> list.waiters == old(list.waiters) + [reply.node] && reply.node.fiber == fiber
                                && reply.node.ticket == old(list.ch.receives) && fresh(reply.node)
      ensures list.scheduled == old(list.scheduled) + Woken(old(list.state).Senders?, old(list.waiters))
      ensures list.served == old(list.served)
    {
      if list.state == Senders {
        ReceiveFromSenders(list.ch);
        var message := list.TakeSender();
        reply := Now(message);
      } else {
        var node := list.ParkReceiver(fiber);
        reply := Parked(node);
      }
    }
  }
}
