/**
 The objects behind a contract: the rendezvous word, the shared state, and the one-shot promise.
 What they do is what a contract does in `FutureTree`.
 */
module FutureContract {
  import opened Common
  import opened FutureTree

  /** `fetch_or` on the word; `true` means that the other side was there first. */
  class RendezvousStateMachine {
    var state: bv32

    ghost predicate Valid()
      reads this
    {
      state == 0 || state == 1 || state == 2 || state == 3
    }

    ghost predicate Produced()
      reads this
    {
      state == 1 || state == 3
    }

    ghost predicate Consumed()
      reads this
    {
      state == 2 || state == 3
    }

    constructor ()
      ensures Valid() && !Produced() && !Consumed()
    {
      state := 0;
    }

    method Produce() returns (rendezvous: bool)
      requires Valid()
      modifies this
      ensures Valid() && Produced() && Consumed() == old(Consumed())
      ensures rendezvous == (old(Consumed()) && !old(Produced()))
    {
      var was := state;
      state := state | 1;
      assert 0 as bv32 | 1 == 1 && 1 as bv32 | 1 == 1 && 2 as bv32 | 1 == 3 && 3 as bv32 | 1 == 3;
      rendezvous := was == 2;
    }

    method Consume() returns (rendezvous: bool)
      requires Valid()
      modifies this
      ensures Valid() && Consumed() && Produced() == old(Produced())
      ensures rendezvous == (old(Produced()) && !old(Consumed()))
    {
      var was := state;
      state := state | 2;
      assert 0 as bv32 | 2 == 2 && 1 as bv32 | 2 == 3 && 2 as bv32 | 2 == 2 && 3 as bv32 | 2 == 3;
      rendezvous := was == 1;
    }
  }

  /** Where a callback puts the value it is given. */
  class Receiver {
    var got: seq<Value>

    constructor ()
      ensures got == []
    {
      got := [];
    }
  }

  /** `alive` turns false when the state deletes itself. */
  class ContractState {
    const processor: RendezvousStateMachine
    var callback: Option<Receiver>
    var result: Option<Value>
    var alive: bool
    ghost var inline: bool
    ghost var fired: nat
    ghost var sets: nat

    ghost predicate Valid()
      reads this, processor
    {
      && processor.Valid()
      && (processor.Produced() <==> result.Some?)
      && (processor.Consumed() <==> callback.Some?)
      && (alive <==> !(result.Some? && callback.Some?))
      && fired == (if alive then 0 else 1)
      && (inline ==> !alive)
    }

    /** The contract of `FutureTree` that this object is. */
    ghost function Abstract(): FutureTree.Contract
      requires Valid()
      reads this, processor
    {
      FutureTree.Contract(processor.Produced(), processor.Consumed(), result, false, inline, fired, sets)
    }

    constructor ()
      ensures Valid() && alive && Abstract() == FutureTree.FRESH && fresh(processor)
    {
      processor := new RendezvousStateMachine();
      callback, result, alive, inline, fired, sets := None, None, true, false, 0, 0;
    }

    /** `Set` on the promise: stores the result, and fires the callback if it is there already. */
    method Produce(res: Value)
      requires Valid() && alive && !processor.Produced()
      modifies this, processor, if callback.Some? then {callback.value} else {}
      ensures Valid() && callback == old(callback) && alive == old(callback).None?
      ensures Abstract() == Settled(FutureTree.Produce(old(Abstract()), res))
      ensures callback.Some? ==> callback.value.got == old(Got(callback)) + [res]
    {
      result := Some(res);
      sets := sets + 1;
      var rendezvous := processor.Produce();
      if rendezvous {
        Rendezvous();
      }
    }

    /** A consumer hands over its callback, which fires at once if the result is there already. */
    method Consume(cb: Receiver)
      requires Valid() && alive && !processor.Consumed()
      modifies this, processor, cb
      ensures Valid() && result == old(result) && callback == Some(cb) && alive == result.None?
      ensures Abstract() == Settled(FutureTree.Consume(old(Abstract())))
      ensures cb.got == old(cb.got) + (if result.Some? then [result.value] else [])
    {
      callback := Some(cb);
      var rendezvous := processor.Consume();
      if rendezvous {
        inline := true;
        Rendezvous();
      }
    }

    method Rendezvous()
      requires alive && callback.Some? && result.Some?
      modifies this`alive, this`fired, callback.value
      ensures !alive && fired == old(fired) + 1
      ensures callback.value.got == old(callback.value.got) + [result.value]
    {
      callback.value.got := callback.value.got + [result.value];
      alive := false;
      fired := fired + 1;
    }
  }

  ghost function Got(callback: Option<Receiver>): seq<Value>
    reads if callback.Some? then {callback.value} else {}
  {
    if callback.Some? then callback.value.got else []
  }

  /** A contract after the thread that owes the callback has invoked it. */
  function Settled(c: FutureTree.Contract): FutureTree.Contract {
    if c.pending then FutureTree.Fire(c) else c
  }

  /** `Set` gives up the pointer to the shared state, so there is no second `Set`. */
  class Promise {
    var cs: ContractState?

    constructor (cs: ContractState)
      ensures this.cs == cs
    {
      this.cs := cs;
    }

    predicate IsSatisfied()
      reads this
    {
      cs == null
    }

    method Set(value: Value)
      requires !IsSatisfied() && cs.Valid() && cs.alive && !cs.processor.Produced()
      modifies this, cs, cs.processor, if cs.callback.Some? then {cs.callback.value} else {}
      ensures IsSatisfied() && old(cs).Valid()
      ensures old(cs).Abstract() == Settled(FutureTree.Produce(old(cs.Abstract()), value))
      ensures old(cs).callback == old(cs.callback) && Got(old(cs).callback) == old(Got(cs.callback))
                + (if old(cs).callback.Some? then [value] else [])
    {
      var was := cs;
      cs := null;
      was.Produce(value);
    }
  }

  /** Set and consume in either order: the callback gets the value, once, and the state is gone. */
  method RoundTrip(value: Value, produceFirst: bool) returns (got: seq<Value>)
    ensures got == [value]
  {
    var state := new ContractState();
    var promise := new Promise(state);
    var cb := new Receiver();
    if produceFirst {
      promise.Set(value);
      state.Consume(cb);
    } else {
      state.Consume(cb);
      promise.Set(value);
    }
    got := cb.got;
  }
}
