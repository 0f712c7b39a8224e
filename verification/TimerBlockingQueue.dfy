/**
 The blocking queue of the timer thread as an object over the leftist heap. Each method is one
 section under the queue's mutex; a wait ends one section and begins another. `TimerThread` lets the
 sections of all threads interleave.
 */
module TimerBlockingQueues {
  import opened LeftistHeap

  datatype Answer<T> = Wait | Closed | Answer(value: T)

  class TimerBlockingQueue {
    var waiting: nat
    var isClosed: bool
    const buffer: IntrusiveTimerLeftistHeap

    ghost predicate Valid()
      reads buffer, buffer.timers
    {
      buffer.Valid()
    }

    constructor ()
      ensures Valid() && buffer.timers == {} && waiting == 0 && !isClosed && fresh(buffer)
    {
      waiting, isClosed := 0, false;
      buffer := new IntrusiveTimerLeftistHeap();
    }

    /** `notified` tells whether a waiter, if there is one, is woken. */
    method Push(timer: TimerBase) returns (notified: bool)
      requires Valid() && timer !in buffer.timers
      modifies buffer, buffer.timers`prev, buffer.timers`next, buffer.timers`depth, timer`prev, timer`next, timer`depth
      ensures Valid() && buffer.timers == old(buffer.timers) + {timer} && notified == (waiting > 0)
    {
      buffer.Push(timer);
      notified := waiting > 0;
    }

    method Close() returns (notified: bool)
      requires Valid()
      modifies this`isClosed
      ensures Valid() && isClosed && notified == (waiting > 0)
    {
      isClosed := true;
      notified := waiting > 0;
    }

    /** Counts the caller in when it comes first, and out unless it has to wait. */
    method Enter(first: bool) returns (wait: bool)
      requires Valid() && (!first ==> waiting > 0)
      modifies this`waiting
      ensures wait == (!isClosed && buffer.timers == {})
      ensures waiting == old(waiting) + (if first then 1 else 0) - (if wait then 0 else 1)
    {
      buffer.EarliestTop();
      if first {
        waiting := waiting + 1;
      }
      wait := !isClosed && buffer.IsEmpty();
      if !wait {
        waiting := waiting - 1;
      }
    }

    /** Waits while the queue is open and empty; a timer it gives is one with the earliest deadline, and
        a closed queue still gives all its timers. */
    method GetClosestTimer(first: bool) returns (answer: Answer<TimerBase>)
      requires Valid() && (!first ==> waiting > 0)
      modifies this`waiting, buffer, buffer.timers`prev, buffer.timers`next, buffer.timers`depth
      ensures Valid()
      ensures waiting == old(waiting) + (if first then 1 else 0) - (if answer.Wait? then 0 else 1)
      ensures answer.Wait? <==> !isClosed && old(buffer.timers) == {}
      ensures answer.Closed? <==> isClosed && old(buffer.timers) == {}
      ensures answer.Answer? ==>
        && answer.value in old(buffer.timers) && buffer.timers == old(buffer.timers) - {answer.value}
        && forall t :: t in old(buffer.timers) ==> answer.value.deadline <= t.deadline
      ensures !answer.Answer? ==> buffer.timers == {}
    {
      buffer.EarliestTop();
      var wait := Enter(first);
      if wait {
        return Wait;
      }
      if isClosed && buffer.IsEmpty() {
        return Closed;
      }
      var timer := buffer.Pop();
      return Answer(timer);
    }

    method NearestDeadLine(first: bool) returns (answer: Answer<int>)
      requires Valid() && (!first ==> waiting > 0)
      modifies this`waiting
      ensures Valid()
      ensures waiting == old(waiting) + (if first then 1 else 0) - (if answer.Wait? then 0 else 1)
      ensures answer.Wait? <==> !isClosed && buffer.timers == {}
      ensures answer.Closed? <==> isClosed && buffer.timers == {}
      ensures answer.Answer? ==>
        && (exists t :: t in buffer.timers && t.deadline == answer.value)
        && forall t :: t in buffer.timers ==> answer.value <= t.deadline
    {
      buffer.EarliestTop();
      var wait := Enter(first);
      if wait {
        return Wait;
      }
      if isClosed && buffer.IsEmpty() {
        return Closed;
      }
      return Answer(buffer.top.deadline);
    }
  }
}
