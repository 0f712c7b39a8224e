/**
 Whole runs of both channels, from an empty one: which values are received, and which fibers are
 parked and woken, in what order.
 */
module ChannelRuns {
  import opened Channels
  import opened Common

  /** A fiber enters `Send` or `Receive`. */
  datatype Op<T> = DoSend(val: T, fiber: nat) | DoReceive(fiber: nat)

  function SendsOf<T>(ops: seq<Op<T>>): seq<T> {
    if ops == [] then [] else
    var last := ops[|ops| - 1];
    SendsOf(ops[..|ops| - 1]) + (if last.DoSend? then [last.val] else [])
  }

  function ReceivesOf<T>(ops: seq<Op<T>>): nat {
    if ops == [] then 0 else ReceivesOf(ops[..|ops| - 1]) + (if ops[|ops| - 1].DoReceive? then 1 else 0)
  }

  function SendFibers<T>(ops: seq<Op<T>>): (fibers: seq<nat>)
    ensures |fibers| == |SendsOf(ops)|
  {
    if ops == [] then [] else
    var last := ops[|ops| - 1];
    SendFibers(ops[..|ops| - 1]) + (if last.DoSend? then [last.fiber] else [])
  }

  function ReceiveFibers<T>(ops: seq<Op<T>>): (fibers: seq<nat>)
    ensures |fibers| == ReceivesOf(ops)
  {
    if ops == [] then [] else
    var last := ops[|ops| - 1];
    ReceiveFibers(ops[..|ops| - 1]) + (if last.DoReceive? then [last.fiber] else [])
  }

  /** The abstract channel after some operations. */
  function ChanOf<T>(capacity: nat, ops: seq<Op<T>>): Chan<T> { Chan(capacity, SendsOf(ops), ReceivesOf(ops)) }

  /** The `k`-th send, or the `k`-th receive, is woken. */
  datatype Wake = SendWoken(k: nat) | ReceiveWoken(k: nat)

  /** Whom the next operation wakes: the first hungry receiver or the first blocked sender. */
  function WakeOf<T>(ch: Chan<T>, op: Op<T>): seq<Wake> {
    match op
    case DoSend(_, _) => if Hungry(ch) > 0 then [ReceiveWoken(|ch.sends|)] else []
    case DoReceive(_) => if Blocked(ch) != [] then [SendWoken(Stored(ch))] else []
  }

  function Wakes<T>(capacity: nat, ops: seq<Op<T>>): seq<Wake> {
    if ops == [] then [] else
    var front := ops[..|ops| - 1];
    Wakes(capacity, front) + WakeOf(ChanOf(capacity, front), ops[|ops| - 1])
  }

  function FiberOf<T>(ops: seq<Op<T>>, w: Wake): nat {
    match w
    case SendWoken(k) => if k < |SendFibers(ops)| then SendFibers(ops)[k] else 0
    case ReceiveWoken(k) => if k < |ReceiveFibers(ops)| then ReceiveFibers(ops)[k] else 0
  }

  /** The fibers that are scheduled, in order. */
  function Scheduled<T>(capacity: nat, ops: seq<Op<T>>): seq<nat> {
    var wakes := Wakes(capacity, ops);
    seq(|wakes|, i requires 0 <= i < |wakes| => FiberOf(ops, wakes[i]))
  }

  /** The sends that had to wait. */
  function ParkedSends<T>(capacity: nat, ops: seq<Op<T>>): set<nat> {
    if ops == [] then {} else
    var front := ops[..|ops| - 1];
    var ch := ChanOf(capacity, front);
    ParkedSends(capacity, front) + (if ops[|ops| - 1].DoSend? && SendBlocks(ch) then {|ch.sends|} else {})
  }

  /** The receives that had to wait. */
  function ParkedReceives<T>(capacity: nat, ops: seq<Op<T>>): set<nat> {
    if ops == [] then {} else
    var front := ops[..|ops| - 1];
    var ch := ChanOf(capacity, front);
    ParkedReceives(capacity, front) + (if ops[|ops| - 1].DoReceive? && ReceiveBlocks(ch) then {ch.receives} else {})
  }

  lemma {:induction false} ParkedRange<T>(capacity: nat, ops: seq<Op<T>>, k: nat)
    ensures k in ParkedSends(capacity, ops) ==> k < |SendsOf(ops)|
    ensures k in ParkedReceives(capacity, ops) ==> k < ReceivesOf(ops)
    ensures ReceivesOf(ops) + capacity <= k < |SendsOf(ops)| ==> k in ParkedSends(capacity, ops)
    ensures |SendsOf(ops)| <= k < ReceivesOf(ops) ==> k in ParkedReceives(capacity, ops)
  {
    if ops != [] { ParkedRange(capacity, ops[..|ops| - 1], k); }
  }

  /** In whole runs, the `k`-th send has been woken exactly if it had to wait and there is room for it or a
      receive of its number by now, and likewise the `k`-th receive; nobody is woken twice. */
  lemma {:induction false} WokenIff<T>(capacity: nat, ops: seq<Op<T>>, k: nat)
    ensures SendWoken(k) in Wakes(capacity, ops)
       <==> k in ParkedSends(capacity, ops) && k < ReceivesOf(ops) + capacity
    ensures ReceiveWoken(k) in Wakes(capacity, ops)
       <==> k in ParkedReceives(capacity, ops) && k < |SendsOf(ops)|
  {
    if ops != [] {
      var front := ops[..|ops| - 1];
      WokenIff(capacity, front, k);
      ParkedRange(capacity, front, k);
    }
  }

  lemma {:induction false} WokenOnce<T>(capacity: nat, ops: seq<Op<T>>)
    ensures NoDuplicates(Wakes(capacity, ops))
  {
    if ops != [] {
      var front := ops[..|ops| - 1];
      var ch := ChanOf(capacity, front);
      WokenOnce(capacity, front);
      WokenIff(capacity, front, |ch.sends|);
      WokenIff(capacity, front, Stored(ch));
    }
  }

  /** The waiters are the blocked or hungry fibers, in the order in which they entered. */
  ghost predicate FibersOk<T>(capacity: nat, waiters: seq<WaiterNode<T>>, ops: seq<Op<T>>) {
    var ch := ChanOf(capacity, ops);
    && |waiters| == |Blocked(ch)| + Hungry(ch)
    && (StateOf(ch).Senders? ==> Ordered(waiters, SendFibers(ops), Stored(ch)))
    && (StateOf(ch).Receivers? ==> Ordered(waiters, ReceiveFibers(ops), |ch.sends|))
  }

  ghost predicate Ordered<T>(waiters: seq<WaiterNode<T>>, fibers: seq<nat>, first: nat) {
    && first + |waiters| == |fibers|
    && forall i :: 0 <= i < |waiters| ==> waiters[i].fiber == fibers[first + i]
  }

  lemma SendKeepsFibers<T>(capacity: nat, waiters: seq<WaiterNode<T>>, waiters': seq<WaiterNode<T>>,
                           ops: seq<Op<T>>, val: T, fiber: nat)
    requires FibersOk(capacity, waiters, ops)
    requires var ch := ChanOf(capacity, ops);
      if SendBlocks(ch) then IsLast(waiters', waiters, fiber)
      else waiters' == Remaining(StateOf(ch).Receivers?, waiters)
    ensures FibersOk(capacity, waiters', ops + [DoSend(val, fiber)])
  {
    var ch, more := ChanOf(capacity, ops), ops + [DoSend(val, fiber)];
    assert more[..|more| - 1] == ops;
    assert ChanOf(capacity, more) == Sent(ch, val);
    if SendBlocks(ch) { SendThatBlocks(ch, val); }
    else if Hungry(ch) > 0 { SendToHungry(ch, val); }
    else { SendThatIsStored(ch, val); }
  }

  lemma ReceiveKeepsFibers<T>(capacity: nat, waiters: seq<WaiterNode<T>>, waiters': seq<WaiterNode<T>>,
                              ops: seq<Op<T>>, fiber: nat)
    requires FibersOk(capacity, waiters, ops)
    requires var ch := ChanOf(capacity, ops);
      if ReceiveBlocks(ch) then IsLast(waiters', waiters, fiber)
      else waiters' == Remaining(StateOf(ch).Senders?, waiters)
    ensures FibersOk(capacity, waiters', ops + [DoReceive(fiber)])
  {
    var ch, more := ChanOf(capacity, ops), ops + [DoReceive(fiber)];
    assert more[..|more| - 1] == ops;
    assert ChanOf(capacity, more) == Received(ch);
    if Blocked(ch) != [] { ReceiveFromSenders(ch); }
    else if ReceiveBlocks(ch) { ReceiveThatBlocks(ch); }
    else { ReceiveStored(ch); }
  }

  /** An operation adds the fiber at the head of the list, if it wakes it. */
  lemma ScheduledNext<T>(capacity: nat, waiters: seq<WaiterNode<T>>, ops: seq<Op<T>>, op: Op<T>)
    requires FibersOk(capacity, waiters, ops)
    ensures var state := StateOf(ChanOf(capacity, ops));
      Scheduled(capacity, ops + [op])
      == Scheduled(capacity, ops) + Woken(if op.DoSend? then state.Receivers? else state.Senders?, waiters)
  {
    var more := ops + [op];
    assert more[..|more| - 1] == ops;
    forall i | 0 <= i < |Wakes(capacity, ops)|
      ensures FiberOf(more, Wakes(capacity, ops)[i]) == FiberOf(ops, Wakes(capacity, ops)[i])
    {
      FiberKept(capacity, ops, op, Wakes(capacity, ops)[i]);
    }
  }

  lemma FiberKept<T>(capacity: nat, ops: seq<Op<T>>, op: Op<T>, w: Wake)
    requires w in Wakes(capacity, ops)
    ensures FiberOf(ops + [op], w) == FiberOf(ops, w)
  {
    assert (ops + [op])[..|ops|] == ops;
    WokenIff(capacity, ops, w.k);
    ParkedRange(capacity, ops, w.k);
  }

  /** The `k`-th receive has the value of the `k`-th send: at once, or on being woken, which has
      happened exactly if that send has come. */
  ghost predicate Matched<T(!new)>(list: WaitList<T>, reply: Reply<T>, k: nat)
    reads list, if reply.Parked? then {reply.node} else {}
  {
    match reply
    case Now(v) => k < |list.ch.sends| && v == list.ch.sends[k]
    case Parked(node) =>
      && node.ticket == k
      && (node in list.served <==> k < |list.ch.sends|)
      && (k < |list.ch.sends| ==> node.message == Some(list.ch.sends[k]))
      && (k >= |list.ch.sends| ==> node in list.waiters)
  }

  /** What is kept of each reply until the end of the run. */
  ghost predicate Pending<T(!new)>(sends: seq<T>, known: set<WaiterNode<T>>, reply: Reply<T>, k: nat) {
    match reply
    case Now(v) => k < |sends| && v == sends[k]
    case Parked(node) => node.ticket == k && node in known
  }

  ghost predicate AllPending<T(!new)>(list: WaitList<T>, replies: seq<Reply<T>>)
    reads list
  {
    && |replies| == list.ch.receives
    && forall k :: 0 <= k < |replies| ==> Pending(list.ch.sends, list.served + list.Waiting(), replies[k], k)
  }

  lemma PendingKept<T(!new)>(sends: seq<T>, known: set<WaiterNode<T>>, sends': seq<T>, known': set<WaiterNode<T>>,
                             replies: seq<Reply<T>>)
    requires sends <= sends' && known <= known'
    requires forall k :: 0 <= k < |replies| ==> Pending(sends, known, replies[k], k)
    ensures forall k :: 0 <= k < |replies| ==> Pending(sends', known', replies[k], k)
  {
  }

  lemma PendingMore<T(!new)>(sends: seq<T>, known: set<WaiterNode<T>>, replies: seq<Reply<T>>, reply: Reply<T>)
    requires forall k :: 0 <= k < |replies| ==> Pending(sends, known, replies[k], k)
    requires Pending(sends, known, reply, |replies|)
    ensures forall k :: 0 <= k < |replies + [reply]| ==> Pending(sends, known, (replies + [reply])[k], k)
  {
  }

  /** A receiver that had to wait has been served exactly if the send with its own number has come. */
  lemma PendingIsMatched<T(!new)>(list: WaitList<T>, reply: Reply<T>, k: nat)
    requires list.Valid() && Pending(list.ch.sends, list.served + list.Waiting(), reply, k)
    ensures Matched(list, reply, k)
  {
    if reply.Parked? && reply.node !in list.served {
      assert exists i :: 0 <= i < |list.waiters| && list.waiters[i] == reply.node;
    }
  }

  ghost predicate AllMatched<T(!new)>(list: WaitList<T>, replies: seq<Reply<T>>)
    reads list, set r | r in replies && r.Parked? :: r.node
  {
    |replies| == list.ch.receives && forall k :: 0 <= k < |replies| ==> Matched(list, replies[k], k)
  }

  lemma AllPendingMatched<T(!new)>(list: WaitList<T>, replies: seq<Reply<T>>)
    requires list.Valid() && AllPending(list, replies)
    ensures AllMatched(list, replies)
  {
    forall k | 0 <= k < |replies| ensures Matched(list, replies[k], k) { PendingIsMatched(list, replies[k], k); }
  }

  /** What one operation changes. */
  ghost predicate Moves<T>(was: View<T>, op: Op<T>, now: View<T>) {
    match op
    case DoSend(val, fiber) =>
      && now.ch == Sent(was.ch, val)
      && now.scheduled == was.scheduled + Woken(StateOf(was.ch).Receivers?, was.waiters)
      && if SendBlocks(was.ch) then IsLast(now.waiters, was.waiters, fiber)
         else now.waiters == Remaining(StateOf(was.ch).Receivers?, was.waiters)
    case DoReceive(fiber) =>
      && now.ch == Received(was.ch)
      && now.scheduled == was.scheduled + Woken(StateOf(was.ch).Senders?, was.waiters)
      && if ReceiveBlocks(was.ch) then IsLast(now.waiters, was.waiters, fiber)
         else now.waiters == Remaining(StateOf(was.ch).Senders?, was.waiters)
  }

  /** After the given operations: the channel, the fibers parked, and the fibers scheduled so far. */
  ghost predicate OnTrack<T>(view: View<T>, capacity: nat, ops: seq<Op<T>>) {
    && view.ch == ChanOf(capacity, ops)
    && view.scheduled == Scheduled(capacity, ops)
    && FibersOk(capacity, view.waiters, ops)
  }

  lemma StartsOnTrack<T>(capacity: nat, ops: seq<Op<T>>)
    ensures OnTrack(View(Chan(capacity, [], 0), [], []), capacity, ops[..0])
  {
    assert ops[..0] == [];
  }

  lemma MoveKeepsTrack<T>(was: View<T>, now: View<T>, capacity: nat, ops: seq<Op<T>>, i: nat)
    requires i < |ops| && OnTrack(was, capacity, ops[..i]) && Moves(was, ops[i], now)
    ensures OnTrack(now, capacity, ops[..i + 1])
  {
    assert ops[..i + 1] == ops[..i] + [ops[i]];
    assert ops[..i + 1][..i] == ops[..i];
    ScheduledNext(capacity, was.waiters, ops[..i], ops[i]);
    match ops[i]
    case DoSend(val, fiber) => SendKeepsFibers(capacity, was.waiters, now.waiters, ops[..i], val, fiber);
    case DoReceive(fiber) => ReceiveKeepsFibers(capacity, was.waiters, now.waiters, ops[..i], fiber);
  }

  lemma EndsOnTrack<T>(view: View<T>, capacity: nat, ops: seq<Op<T>>)
    requires OnTrack(view, capacity, ops[..|ops|])
    ensures view.ch == ChanOf(capacity, ops) && view.scheduled == Scheduled(capacity, ops)
  {
    assert ops[..|ops|] == ops;
  }

  method SendBuffered<T(!new)>(state: BufferedChannelState<T>, val: T, fiber: nat, ghost replies: seq<Reply<T>>)
    requires state.Valid() && AllPending(state.list, replies)
    modifies state.list, state.list.Parked(), state.buffer, state.buffer.data
    ensures state.Valid() && AllPending(state.list, replies)
    ensures Moves(old(state.list.Seen()), DoSend(val, fiber), state.list.Seen())
    ensures fresh(state.list.Parked() - old(state.list.Parked()))
  {
    ghost var sends, known := state.list.ch.sends, state.list.served + state.list.Waiting();
    var parked := state.Send(val, fiber);
    PendingKept(sends, known, state.list.ch.sends, state.list.served + state.list.Waiting(), replies);
  }

  method ReceiveBuffered<T(!new)>(state: BufferedChannelState<T>, fiber: nat, replies: seq<Reply<T>>)
    returns (all: seq<Reply<T>>)
    requires state.Valid() && AllPending(state.list, replies)
    modifies state.list, state.list.Parked(), state.buffer, state.buffer.data
    ensures state.Valid() && AllPending(state.list, all)
    ensures Moves(old(state.list.Seen()), DoReceive(fiber), state.list.Seen())
    ensures fresh(state.list.Parked() - old(state.list.Parked()))
  {
    ghost var sends, known := state.list.ch.sends, state.list.served + state.list.Waiting();
    ghost var waiters := state.list.waiters;
    var reply := state.Receive(fiber);
    assert reply.Parked? ==> IsLast(state.list.waiters, waiters, fiber);
    all := replies + [reply];
    PendingKept(sends, known, state.list.ch.sends, state.list.served + state.list.Waiting(), replies);
    PendingMore(sends, state.list.served + state.list.Waiting(), replies, reply);
  }

  /** The `i`-th operation of a run. */
  method PerformBuffered<T(!new)>(state: BufferedChannelState<T>, ops: seq<Op<T>>, i: nat, replies: seq<Reply<T>>)
    returns (all: seq<Reply<T>>)
    requires i < |ops| && state.Valid() && AllPending(state.list, replies)
    requires OnTrack(state.list.Seen(), state.list.ch.capacity, ops[..i])
    modifies state.list, state.list.Parked(), state.buffer, state.buffer.data
    ensures state.Valid() && AllPending(state.list, all) && state.list.ch.capacity == old(state.list.ch.capacity)
    ensures OnTrack(state.list.Seen(), state.list.ch.capacity, ops[..i + 1])
    ensures fresh(state.list.Parked() - old(state.list.Parked()))
  {
    ghost var was := state.list.Seen();
    all := replies;
    match ops[i] {
      case DoSend(val, fiber) => SendBuffered(state, val, fiber, replies);
      case DoReceive(fiber) => all := ReceiveBuffered(state, fiber, replies);
    }
    MoveKeepsTrack(was, state.list.Seen(), was.ch.capacity, ops, i);
  }

  method SendRendezvous<T(!new)>(state: RendezvousChannelState<T>, val: T, fiber: nat, ghost replies: seq<Reply<T>>)
    requires state.Valid() && AllPending(state.list, replies)
    modifies state.list, state.list.Parked()
    ensures state.Valid() && AllPending(state.list, replies)
    ensures Moves(old(state.list.Seen()), DoSend(val, fiber), state.list.Seen())
    ensures fresh(state.list.Parked() - old(state.list.Parked()))
  {
    ghost var sends, known := state.list.ch.sends, state.list.served + state.list.Waiting();
    var parked := state.Send(val, fiber);
    PendingKept(sends, known, state.list.ch.sends, state.list.served + state.list.Waiting(), replies);
  }

  method ReceiveRendezvous<T(!new)>(state: RendezvousChannelState<T>, fiber: nat, replies: seq<Reply<T>>)
    returns (all: seq<Reply<T>>)
    requires state.Valid() && AllPending(state.list, replies)
    modifies state.list, state.list.Parked()
    ensures state.Valid() && AllPending(state.list, all)
    ensures Moves(old(state.list.Seen()), DoReceive(fiber), state.list.Seen())
    ensures fresh(state.list.Parked() - old(state.list.Parked()))
  {
    ghost var sends, known := state.list.ch.sends, state.list.served + state.list.Waiting();
    ghost var waiters := state.list.waiters;
    var reply := state.Receive(fiber);
    assert reply.Parked? ==> IsLast(state.list.waiters, waiters, fiber);
    all := replies + [reply];
    PendingKept(sends, known, state.list.ch.sends, state.list.served + state.list.Waiting(), replies);
    PendingMore(sends, state.list.served + state.list.Waiting(), replies, reply);
  }

  /** The `i`-th operation of a run. */
  method PerformRendezvous<T(!new)>(state: RendezvousChannelState<T>, ops: seq<Op<T>>, i: nat, replies: seq<Reply<T>>)
    returns (all: seq<Reply<T>>)
    requires i < |ops| && state.Valid() && AllPending(state.list, replies)
    requires OnTrack(state.list.Seen(), state.list.ch.capacity, ops[..i])
    modifies state.list, state.list.Parked()
    ensures state.Valid() && AllPending(state.list, all) && state.list.ch.capacity == old(state.list.ch.capacity)
    ensures OnTrack(state.list.Seen(), state.list.ch.capacity, ops[..i + 1])
    ensures fresh(state.list.Parked() - old(state.list.Parked()))
  {
    ghost var was := state.list.Seen();
    all := replies;
    match ops[i] {
      case DoSend(val, fiber) => SendRendezvous(state, val, fiber, replies);
      case DoReceive(fiber) => all := ReceiveRendezvous(state, fiber, replies);
    }
    MoveKeepsTrack(was, state.list.Seen(), was.ch.capacity, ops, i);
  }

  /** However sends and receives interleave, the k-th receive to enter gets the k-th send's value, and
      the fibers scheduled are those that `Wakes` says, in that order. */
  method DriveBuffered<T(!new)>(capacity: nat, ops: seq<Op<T>>)
    returns (state: BufferedChannelState<T>, replies: seq<Reply<T>>)
    requires capacity > 0
    ensures state.Valid() && state.list.ch == ChanOf(capacity, ops)
    ensures AllMatched(state.list, replies) && state.list.scheduled == Scheduled(capacity, ops)
  {
    StartsOnTrack(capacity, ops);
    state := new BufferedChannelState<T>(capacity);
    replies := [];
    for i := 0 to |ops|
      invariant state.Valid() && fresh(state.list) && fresh(state.buffer) && fresh(state.buffer.data)
      invariant fresh(state.list.Parked())
      invariant state.list.ch.capacity == capacity && OnTrack(state.list.Seen(), capacity, ops[..i])
      invariant AllPending(state.list, replies)
    {
      replies := PerformBuffered(state, ops, i, replies);
    }
    EndsOnTrack(state.list.Seen(), capacity, ops);
    AllPendingMatched(state.list, replies);
  }

  method DriveRendezvous<T(!new)>(ops: seq<Op<T>>) returns (state: RendezvousChannelState<T>, replies: seq<Reply<T>>)
    ensures state.Valid() && state.list.ch == ChanOf(0, ops)
    ensures AllMatched(state.list, replies) && state.list.scheduled == Scheduled(0, ops)
  {
    StartsOnTrack(0, ops);
    state := new RendezvousChannelState<T>();
    replies := [];
    for i := 0 to |ops|
      invariant state.Valid() && fresh(state.list)
      invariant fresh(state.list.Parked())
      invariant OnTrack(state.list.Seen(), 0, ops[..i])
      invariant AllPending(state.list, replies)
    {
      replies := PerformRendezvous(state, ops, i, replies);
    }
    EndsOnTrack(state.list.Seen(), 0, ops);
    AllPendingMatched(state.list, replies);
  }
}
