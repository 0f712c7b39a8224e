/**
 The denotation of a tree is exact: every value in it is delivered by some complete schedule.
 */
module FutureAttained {
  import opened Common
  import opened FutureSafety
  import opened FutureSteps
  import opened FutureTree

  // ---------------------------------------------------------------------------------------------
  // Sequences of steps

  function Steps(t: Node, ms: seq<Move>): Option<Node> {
    if ms == [] then Some(t) else
    match Steps(t, ms[..|ms| - 1])
    case None => None
    case Some(t') => Step(t', ms[|ms| - 1])
  }

  lemma StepsOne(t: Node, a: Action)
    ensures Steps(t, [Here(a)]) == Step(t, Here(a))
  {
    assert [Here(a)][..0] == [];
    assert Steps(t, [Here(a)][..0]) == Some(t);
  }

  lemma {:induction false} StepsConcat(t: Node, a: seq<Move>, b: seq<Move>)
    requires Steps(t, a).Some?
    ensures Steps(t, a + b) == Steps(Steps(t, a).value, b)
  {
    if b == [] {
      assert a + b == a;
    } else {
      StepsConcat(t, a, b[..|b| - 1]);
      assert (a + b)[..|a + b| - 1] == a + b[..|b| - 1];
    }
  }

  lemma StepThen(t: Node, ms: seq<Move>, t1: Node, a: Action, t2: Node)
    requires Steps(t, ms) == Some(t1) && Step(t1, Here(a)) == Some(t2)
    ensures Steps(t, ms + [Here(a)]) == Some(t2)
  {
    StepsConcat(t, ms, [Here(a)]);
    StepsOne(t1, a);
  }

  datatype Side = L | R | I

  function Into(side: Side, m: Move): Move {
    match side
    case L => GoLeft(m)
    case R => GoRight(m)
    case I => GoInner(m)
  }

  function Lifted(side: Side, ms: seq<Move>): seq<Move> { seq(|ms|, i requires 0 <= i < |ms| => Into(side, ms[i])) }

  predicate Has(t: Node, side: Side) {
    match side
    case L => t.Unary? || t.Binary?
    case R => t.Binary?
    case I => t.Unary? && t.inner.Just?
  }

  function Child(t: Node, side: Side): Node
    requires Has(t, side)
  {
    match side
    case L => if t.Unary? then t.src else t.left
    case R => t.right
    case I => t.inner.node
  }

  function With(t: Node, side: Side, k: Node): Node
    requires Has(t, side)
  {
    match side
    case L => if t.Unary? then t.(src := k) else t.(left := k)
    case R => t.(right := k)
    case I => t.(inner := Just(k))
  }

  /** Steps of a child are steps of its parent. */
  lemma {:induction false} Lift(t: Node, side: Side, ms: seq<Move>)
    requires Has(t, side) && Steps(Child(t, side), ms).Some?
    ensures Steps(t, Lifted(side, ms)) == Some(With(t, side, Steps(Child(t, side), ms).value))
  {
    if ms == [] {
      assert With(t, side, Child(t, side)) == t;
    } else {
      var front := ms[..|ms| - 1];
      Lift(t, side, front);
      assert Lifted(side, ms)[..|ms| - 1] == Lifted(side, front);
    }
  }

  // ---------------------------------------------------------------------------------------------
  // Values set when the tree has been put together, and later

  /** The tree has been put together and set to `v`, and nobody consumes it yet. */
  ghost predicate Gave(t: Node, v: Value) { Finished(t) && t.c == Produce(FRESH, v) }

  ghost predicate Gives(t: Node, ms: seq<Move>, v: Value) { Steps(t, ms).Some? && Gave(Steps(t, ms).value, v) }

  /** After `ms` the tree has been put together but is not set; after `later` it is set to `v`. */
  ghost predicate Defers(t: Node, ms: seq<Move>, later: seq<Move>, v: Value) {
    && Steps(t, ms).Some?
    && Assembled(Steps(t, ms).value) && Steps(t, ms).value.c == FRESH
    && Gives(Steps(t, ms).value, later, v)
  }

  lemma DefersGives(t: Node, ms: seq<Move>, later: seq<Move>, v: Value)
    requires Defers(t, ms, later, v)
    ensures Gives(t, ms + later, v)
  {
    StepsConcat(t, ms, later);
  }

  lemma {:induction false} StepsWF(t: Node, ms: seq<Move>)
    requires WF(t) && Steps(t, ms).Some?
    ensures WF(Steps(t, ms).value)
  {
    if ms != [] {
      StepsWF(t, ms[..|ms| - 1]);
      StepWF(Steps(t, ms[..|ms| - 1]).value, ms[|ms| - 1]);
    }
  }

  /** Nobody has consumed the node. */
  predicate Loose(t: Node) { t.c == FRESH || (t.c.result.Some? && t.c == Produce(FRESH, t.c.result.value)) }

  /** The same node, consumed before it was set. */
  function Taken(t: Node): Node {
    Update(t, if t.c.result.Some? then Produce(Consume(FRESH), t.c.result.value) else Consume(FRESH))
  }

  /** No step of a node but its own `Set` depends on its own contract. */
  lemma UpdateStep(t: Node, m: Move, c: Contract)
    requires m != Here(SetPromise) && Step(t, m).Some?
    ensures Step(t, m).value.c == t.c && Step(Update(t, c), m) == Some(Update(Step(t, m).value, c))
  {
    if m.Here? && t.Unary? { UpdateUnary(t, m.a, c); }
    else if m.Here? && t.Binary? { UpdateBinary(t, m.a, c); }
  }

  lemma UpdateUnary(t: Node, a: Action, c: Contract)
    requires t.Unary? && StepUnary(t, a).Some?
    ensures StepUnary(t, a).value.c == t.c && StepUnary(Update(t, c), a) == Some(Update(StepUnary(t, a).value, c))
  {
  }

  lemma UpdateBinary(t: Node, a: Action, c: Contract)
    requires t.Binary? && StepBinary(t, a).Some?
    ensures StepBinary(t, a).value.c == t.c && StepBinary(Update(t, c), a) == Some(Update(StepBinary(t, a).value, c))
  {
  }

  lemma TakenStep(t: Node, m: Move)
    requires WF(t) && Loose(t) && Step(t, m).Some?
    ensures Loose(Step(t, m).value) && Step(Taken(t), m) == Some(Taken(Step(t, m).value))
  {
    if m == Here(SetPromise) {
      assert t.c == FRESH;
    } else {
      UpdateStep(t, m, Taken(t).c);
    }
  }

  lemma {:induction false} TakenSteps(t: Node, ms: seq<Move>)
    requires WF(t) && Loose(t) && Steps(t, ms).Some?
    ensures Loose(Steps(t, ms).value) && Steps(Taken(t), ms) == Some(Taken(Steps(t, ms).value))
  {
    if ms != [] {
      TakenSteps(t, ms[..|ms| - 1]);
      StepsWF(t, ms[..|ms| - 1]);
      TakenStep(Steps(t, ms[..|ms| - 1]).value, ms[|ms| - 1]);
    }
  }

  // ---------------------------------------------------------------------------------------------
  // Binary combinators

  /** A binary combinator that has consumed nothing yet. */
  function Meet(bop: BinaryOp, l: Node, r: Node): Node { Binary(bop, l, r, Cell(0, None, None), Wait, FRESH, false) }

  lemma Together(bop: BinaryOp, l: Node, r: Node, ml: seq<Move>, mr: seq<Move>) returns (ms: seq<Move>)
    requires Steps(l, ml).Some? && Steps(r, mr).Some?
    ensures Steps(Meet(bop, l, r), ms) == Some(Meet(bop, Steps(l, ml).value, Steps(r, mr).value))
  {
    var t := Meet(bop, l, r);
    Lift(t, L, ml);
    var mid := With(t, L, Steps(l, ml).value);
    Lift(mid, R, mr);
    ms := Lifted(L, ml) + Lifted(R, mr);
    StepsConcat(t, Lifted(L, ml), Lifted(R, mr));
  }

  /** A set future that is consumed. */
  function Eaten(k: Node): Node { Update(k, Consume(k.c)) }

  /** A future whose callback is invoked. */
  function Spent(k: Node): Node { Update(k, Fire(k.c)) }

  /** `Set`, if there is something to set. */
  lemma SetIfOut(t: Node, ms: seq<Move>, t1: Node) returns (all: seq<Move>, t2: Node)
    requires Steps(t, ms) == Some(t1)
    ensures Steps(t, all) == Some(t2)
    ensures t2 == if t1.phase.Out? then t1.(c := Produce(t1.c, t1.phase.w), phase := Done, inside := false) else t1
  {
    if t1.phase.Out? {
      t2 := Step(t1, Here(SetPromise)).value;
      StepThen(t, ms, t1, SetPromise, t2);
      all := ms + [Here(SetPromise)];
    } else {
      all, t2 := ms, t1;
    }
  }

  /** The left future is set when it is consumed, and its callback is invoked at once. */
  lemma LeftInline(bop: BinaryOp, l: Node, u: Value, r: Node) returns (ms: seq<Move>, t: Node)
    requires Gave(l, u) && Assembled(r)
    ensures Steps(Meet(bop, l, r), ms) == Some(t) && t.Binary? && t.bop == bop
    ensures t.left == Spent(Eaten(l)) && t.right == r
    ensures !t.inside && t.phase.Done? == (bop.First? || (bop.FirstOk? && !u.Err?))
    ensures t.phase.Done? ==> t.c == Produce(FRESH, u) && t.cell.state == 1
    ensures !t.phase.Done? ==> t.phase.Wait? && t.c == FRESH
    ensures !t.phase.Done? ==> t.cell == (if bop.Both? then Cell(1, Some(u), None) else Cell(2, None, None))
  {
    var t0 := Meet(bop, l, r);
    var t1 := t0.(left := Eaten(l));
    StepsOne(t0, AttachLeft);
    var t2 := Step(t1, Here(FireLeft)).value;
    StepThen(t0, [Here(AttachLeft)], t1, FireLeft, t2);
    ms, t := SetIfOut(t0, [Here(AttachLeft)] + [Here(FireLeft)], t2);
  }

  /** The left future is not set when it is consumed. */
  lemma LeftPends(bop: BinaryOp, l: Node, r: Node) returns (ms: seq<Move>)
    requires Assembled(l) && l.c == FRESH && Assembled(r)
    ensures Steps(Meet(bop, l, r), ms) == Some(Meet(bop, Eaten(l), r))
  {
    StepsOne(Meet(bop, l, r), AttachLeft);
    ms := [Here(AttachLeft)];
  }

  /** The right future is set when it is consumed, and its callback is invoked at once. */
  lemma RightInline(t: Node, w: Value) returns (ms: seq<Move>, t2: Node)
    requires t.Binary? && !t.inside && t.left.c.consumer && !Busy(t.left.c) && Gave(t.right, w)
    ensures var fired := Arrive(t.(right := Spent(Eaten(t.right))), w, 2, 1, true);
      && Steps(t, ms) == Some(t2)
      && t2 == if fired.phase.Out? then fired.(c := Produce(fired.c, fired.phase.w), phase := Done, inside := false)
               else fired
  {
    var t1 := t.(right := Eaten(t.right));
    StepsOne(t, AttachRight);
    var fired := Step(t1, Here(FireRight)).value;
    StepThen(t, [Here(AttachRight)], t1, FireRight, fired);
    ms, t2 := SetIfOut(t, [Here(AttachRight)] + [Here(FireRight)], fired);
  }

  /** A future consumed before it was set is set later, and the thread that sets it invokes the
      callback. */
  lemma LeftComes(t: Node, k: Node, later: seq<Move>, u: Value) returns (ms: seq<Move>, done: Node)
    requires t.Binary? && WF(k) && k.c == FRESH && Gives(k, later, u) && t.left == Eaten(k)
    ensures Assembled(done) && done.c == Fire(Produce(Consume(FRESH), u))
    ensures Steps(t, ms) == Some(Arrive(t.(left := done), u, 1, 2, false))
  {
    TakenSteps(k, later);
    var given := Taken(Steps(k, later).value);
    Lift(t, L, later);
    var t1 := With(t, L, given);
    done := Spent(given);
    var t2 := Step(t1, Here(FireLeft)).value;
    StepThen(t, Lifted(L, later), t1, FireLeft, t2);
    ms := Lifted(L, later) + [Here(FireLeft)];
  }

  lemma RightComes(t: Node, k: Node, later: seq<Move>, w: Value) returns (ms: seq<Move>, done: Node)
    requires t.Binary? && WF(k) && k.c == FRESH && Gives(k, later, w) && t.right == Eaten(k)
    ensures Assembled(done) && done.c == Fire(Produce(Consume(FRESH), w))
    ensures Steps(t, ms) == Some(Arrive(t.(right := done), w, 2, 1, false))
  {
    TakenSteps(k, later);
    var given := Taken(Steps(k, later).value);
    Lift(t, R, later);
    var t1 := With(t, R, given);
    done := Spent(given);
    var t2 := Step(t1, Here(FireRight)).value;
    StepThen(t, Lifted(R, later), t1, FireRight, t2);
    ms := Lifted(R, later) + [Here(FireRight)];
  }

  lemma ComposeGives(t: Node, a: seq<Move>, t1: Node, b: seq<Move>, v: Value)
    requires Steps(t, a) == Some(t1) && Gives(t1, b, v)
    ensures Gives(t, a + b, v)
  {
    StepsConcat(t, a, b);
  }

  lemma ComposeDefers(t: Node, a: seq<Move>, t1: Node, b: seq<Move>, later: seq<Move>, v: Value)
    requires Steps(t, a) == Some(t1) && Defers(t1, b, later, v)
    ensures Defers(t, a + b, later, v)
  {
    StepsConcat(t, a, b);
  }

  /** What the combinator has set once both callbacks have been invoked at once. */
  lemma RightDecides(t: Node, w: Value) returns (ms: seq<Move>, t2: Node)
    requires t.Binary? && !t.inside && t.c == FRESH && t.phase.Wait? && Gave(t.right, w)
    requires Assembled(t.left) && t.left.c.consumer && !Busy(t.left.c)
    requires (t.bop.Both? && t.cell.state == 1 && t.cell.v1.Some?) || (t.bop.FirstOk? && t.cell.state == 2)
             || (t.bop.First? && t.cell.state == 0) || (t.bop.FirstOk? && !w.Err? && t.cell.state == 0)
    ensures Gives(t, ms, if t.bop.Both? then Pair(t.cell.v1.value, w) else w)
  {
    ms, t2 := RightInline(t, w);
    assert t2.right == Spent(Eaten(t.right)) && t2.left == t.left;
    assert Assembled(t2.right);
    assert Finished(t2);
  }

  /** The combinator is set already; the right callback changes nothing. */
  lemma RightLoses(t: Node, u: Value, w: Value) returns (ms: seq<Move>)
    requires t.Binary? && Finished(t.left) && t.left.c.consumer && !Busy(t.left.c) && Gave(t.right, w)
    requires t.phase.Done? && !t.inside && t.c == Produce(FRESH, u) && t.cell.state == 1 && !t.bop.Both?
    ensures Gives(t, ms, u)
  {
    var t2;
    ms, t2 := RightInline(t, w);
    assert t2.right == Spent(Eaten(t.right)) && t2.left == t.left;
    assert Assembled(t2.right);
    assert Finished(t2);
  }

  /** Both inputs are set when they are consumed. */
  lemma NowNow(bop: BinaryOp, l: Node, u: Value, r: Node, w: Value) returns (ms: seq<Move>)
    requires Gave(l, u) && Gave(r, w)
    ensures Gives(Meet(bop, l, r), ms, if bop.Both? then Pair(u, w) else if bop.FirstOk? && u.Err? then w else u)
  {
    var left, t := LeftInline(bop, l, u, r);
    var right;
    if t.phase.Done? {
      right := RightLoses(t, u, w);
    } else {
      var t2;
      right, t2 := RightDecides(t, w);
    }
    ms := left + right;
    var v := if bop.Both? then Pair(u, w) else if bop.FirstOk? && u.Err? then w else u;
    ComposeGives(Meet(bop, l, r), left, t, right, v);
  }

  /** The left input comes later; the right one is set when it is consumed, and decides. */
  lemma RightNow(bop: BinaryOp, l: Node, r: Node, w: Value) returns (ms: seq<Move>)
    requires bop.First? || (bop.FirstOk? && !w.Err?)
    requires Assembled(l) && l.c == FRESH && Gave(r, w)
    ensures Gives(Meet(bop, l, r), ms, w)
  {
    var left := LeftPends(bop, l, r);
    var t := Meet(bop, Eaten(l), r);
    var right, t2 := RightDecides(t, w);
    ms := left + right;
    ComposeGives(Meet(bop, l, r), left, t, right, w);
  }

  /** What the combinator has set once the left input has come as well. */
  lemma LeftDecides(t: Node, k: Node, later: seq<Move>, u: Value) returns (ms: seq<Move>)
    requires t.Binary? && WF(k) && k.c == FRESH && Gives(k, later, u) && t.left == Eaten(k)
    requires !t.inside && t.c == FRESH && t.phase.Wait? && Assembled(t.right) && t.right.c.consumer && !Busy(t.right.c)
    requires (t.bop.Both? && t.cell.state == 2 && t.cell.v2.Some?) || (t.bop.FirstOk? && t.cell.state == 2)
    ensures Gives(t, ms, if t.bop.Both? then Pair(u, t.cell.v2.value) else u)
  {
    var come, done := LeftComes(t, k, later, u);
    var t4;
    ms, t4 := SetIfOut(t, come, Arrive(t.(left := done), u, 1, 2, false));
  }

  /** The left input comes later than the right one, which is set when it is consumed. */
  lemma LateNow(bop: BinaryOp, l: Node, later: seq<Move>, u: Value, r: Node, w: Value)
    returns (ms: seq<Move>, rest: seq<Move>)
    requires bop.Both? || (bop.FirstOk? && w.Err?)
    requires WF(l) && Assembled(l) && l.c == FRESH && Gives(l, later, u) && Gave(r, w)
    ensures Defers(Meet(bop, l, r), ms, rest, if bop.Both? then Pair(u, w) else u)
  {
    var left := LeftPends(bop, l, r);
    var t := Meet(bop, Eaten(l), r);
    var right, t2 := RightInline(t, w);
    StepsConcat(Meet(bop, l, r), left, right);
    ms := left + right;
    rest := LeftDecides(t2, l, later, u);
  }

  /** What the combinator has set once the right input has come as well. */
  lemma RightComesLast(t: Node, k: Node, later: seq<Move>, w: Value) returns (ms: seq<Move>)
    requires t.Binary? && WF(k) && k.c == FRESH && Gives(k, later, w) && t.right == Eaten(k)
    requires !t.inside && t.c == FRESH && t.phase.Wait? && Assembled(t.left) && t.left.c.consumer && !Busy(t.left.c)
    requires (t.bop.Both? && t.cell.state == 1 && t.cell.v1.Some?) || (t.bop.FirstOk? && t.cell.state == 2)
             || (t.bop.First? && t.cell.state == 0) || (t.bop.FirstOk? && !w.Err? && t.cell.state == 0)
    ensures Gives(t, ms, if t.bop.Both? then Pair(t.cell.v1.value, w) else w)
  {
    var come, done := RightComes(t, k, later, w);
    var t4;
    ms, t4 := SetIfOut(t, come, Arrive(t.(right := done), w, 2, 1, false));
  }

  /** The left input is set when it is consumed but does not decide alone; the right one comes later. */
  lemma NowLate(bop: BinaryOp, l: Node, u: Value, r: Node, later: seq<Move>, w: Value)
    returns (ms: seq<Move>, rest: seq<Move>)
    requires bop.Both? || (bop.FirstOk? && u.Err?)
    requires WF(r) && Gave(l, u) && Assembled(r) && r.c == FRESH && Gives(r, later, w)
    ensures Defers(Meet(bop, l, r), ms, rest, if bop.Both? then Pair(u, w) else w)
  {
    var left, t := LeftInline(bop, l, u, r);
    var t1 := t.(right := Eaten(r));
    ms := left + [Here(AttachRight)];
    StepThen(Meet(bop, l, r), left, t, AttachRight, t1);
    rest := RightComesLast(t1, r, later, w);
  }

  /** Both inputs come later, and the right one first. */
  lemma LateLate(bop: BinaryOp, l: Node, r: Node, later: seq<Move>, w: Value)
    returns (ms: seq<Move>, rest: seq<Move>)
    requires bop.First? || (bop.FirstOk? && !w.Err?)
    requires Assembled(l) && l.c == FRESH
    requires WF(r) && Assembled(r) && r.c == FRESH && Gives(r, later, w)
    ensures Defers(Meet(bop, l, r), ms, rest, w)
  {
    var left := LeftPends(bop, l, r);
    var t := Meet(bop, Eaten(l), r);
    var t1 := t.(right := Eaten(r));
    ms := left + [Here(AttachRight)];
    StepThen(Meet(bop, l, r), left, t, AttachRight, t1);
    rest := RightComesLast(t1, r, later, w);
  }

  /** The left input comes in time to decide, but the promise is set only after the right one, which is
      set already, has been consumed. */
  lemma LeftMidway(bop: BinaryOp, l: Node, later: seq<Move>, u: Value, r: Node, w: Value)
    returns (ms: seq<Move>, rest: seq<Move>)
    requires bop.First? || (bop.FirstOk? && !u.Err?)
    requires WF(l) && Assembled(l) && l.c == FRESH && Gives(l, later, u) && Gave(r, w)
    ensures Defers(Meet(bop, l, r), ms, rest, u)
  {
    var left := LeftPends(bop, l, r);
    var t := Meet(bop, Eaten(l), r);
    var come, done := LeftComes(t, l, later, u);
    var t1 := Arrive(t.(left := done), u, 1, 2, false);
    StepsConcat(Meet(bop, l, r), left, come);
    var right, t3 := RightIgnored(t1, u, w);
    StepsConcat(Meet(bop, l, r), left + come, right);
    ms := left + come + right;
    StepsOne(t3, SetPromise);
    rest := [Here(SetPromise)];
  }

  /** The combinator is about to be set; the right callback changes nothing. */
  lemma RightIgnored(t: Node, u: Value, w: Value) returns (ms: seq<Move>, t2: Node)
    requires t.Binary? && Assembled(t.left) && t.left.c.consumer && !Busy(t.left.c) && Gave(t.right, w)
    requires t.phase == Out(u) && !t.inside && t.c == FRESH && t.cell.state == 1 && !t.bop.Both?
    ensures Steps(t, ms) == Some(t2) && Assembled(t2) && t2.c == FRESH && t2.phase == Out(u)
  {
    var t1 := t.(right := Eaten(t.right));
    StepsOne(t, AttachRight);
    t2 := Step(t1, Here(FireRight)).value;
    StepThen(t, [Here(AttachRight)], t1, FireRight, t2);
    ms := [Here(AttachRight)] + [Here(FireRight)];
  }

  // ---------------------------------------------------------------------------------------------
  // Unary combinators

  /** A unary combinator that has not consumed its source yet. */
  function Over(op: UnaryOp, rt: Runtime, k: Node): Node { Unary(op, rt, k, Nothing, FRESH, Wait, FRESH, 0, false) }

  /** A unary combinator whose callback has been invoked; `Flatten` may have been put on top already. */
  ghost predicate Reacting(t: Node) {
    && t.Unary? && t.c == FRESH && t.inner.Nothing?
    && Assembled(t.src) && t.src.c.consumer && !Busy(t.src.c)
    && (t.mid == FRESH || (t.op.FlatMap? && t.mid == Consume(FRESH) && !t.inside))
  }

  ghost predicate ReactingTo(t: Node, v: Value) {
    && Reacting(t)
    && t.phase == match React(t.op, v) case Pass(w) => Out(w) case Call(arg) => Queued(arg)
  }

  lemma LiftUnary(op: UnaryOp, rt: Runtime, k: Node, ms: seq<Move>) returns (all: seq<Move>)
    requires Steps(k, ms).Some?
    ensures Steps(Over(op, rt, k), all) == Some(Over(op, rt, Steps(k, ms).value))
  {
    Lift(Over(op, rt, k), L, ms);
    all := Lifted(L, ms);
  }

  /** The source is set when it is consumed, and the callback is invoked at once. */
  lemma SourceInline(op: UnaryOp, rt: Runtime, k: Node, u: Value) returns (ms: seq<Move>, t: Node)
    requires Gave(k, u)
    ensures Steps(Over(op, rt, k), ms) == Some(t) && ReactingTo(t, u) && t.op == op && t.rt == rt && t.mid == FRESH
    ensures React(op, u).Call? ==> t.inside == rt.Inline?
  {
    var t0 := Over(op, rt, k);
    var t1 := t0.(src := Eaten(k));
    StepsOne(t0, AttachLeft);
    t := Step(t1, Here(FireLeft)).value;
    StepThen(t0, [Here(AttachLeft)], t1, FireLeft, t);
    ms := [Here(AttachLeft)] + [Here(FireLeft)];
  }

  /** `Flatten` is put on top of `Map`, whose callback is over or has not been invoked. */
  lemma PutFlatten(t: Node) returns (ms: seq<Move>, t1: Node)
    requires t.Unary? && t.mid == FRESH && t.src.c.consumer && !Busy(t.src.c) && !t.inside
    ensures Steps(t, ms) == Some(t1) && t1 == if t.op.FlatMap? then t.(mid := Consume(FRESH)) else t
  {
    if t.op.FlatMap? {
      StepsOne(t, AttachMid);
      ms, t1 := [Here(AttachMid)], t.(mid := Consume(FRESH));
    } else {
      ms, t1 := [], t;
    }
  }

  /** The source is not set when it is consumed. */
  lemma SourcePends(op: UnaryOp, rt: Runtime, k: Node) returns (ms: seq<Move>, t: Node)
    requires Assembled(k) && k.c == FRESH
    ensures Steps(Over(op, rt, k), ms) == Some(t) && Assembled(t)
    ensures t == Unary(op, rt, Eaten(k), Nothing, if op.FlatMap? then Consume(FRESH) else FRESH, Wait, FRESH, 0, false)
  {
    var t0 := Over(op, rt, k);
    var t1 := t0.(src := Eaten(k));
    StepsOne(t0, AttachLeft);
    var put;
    put, t := PutFlatten(t1);
    StepsConcat(t0, [Here(AttachLeft)], put);
    ms := [Here(AttachLeft)] + put;
  }

  lemma SourceComes(t: Node, k: Node, later: seq<Move>, u: Value) returns (ms: seq<Move>, t2: Node)
    requires t.Unary? && t.phase.Wait? && !t.inside && t.c == FRESH && t.inner.Nothing?
    requires t.mid == if t.op.FlatMap? then Consume(FRESH) else FRESH
    requires WF(k) && k.c == FRESH && Gives(k, later, u) && t.src == Eaten(k)
    ensures Steps(t, ms) == Some(t2) && ReactingTo(t2, u) && !t2.inside && t2.op == t.op
  {
    TakenSteps(k, later);
    var given := Taken(Steps(k, later).value);
    Lift(t, L, later);
    var t1 := With(t, L, given);
    t2 := Step(t1, Here(FireLeft)).value;
    StepThen(t, Lifted(L, later), t1, FireLeft, t2);
    ms := Lifted(L, later) + [Here(FireLeft)];
  }

  /** The future that the user function returned passes through `Flatten`, if there is one, to the point
      where it is consumed. */
  lemma Hand(t: Node) returns (ms: seq<Move>, t1: Node)
    requires t.Unary? && t.inner.Just? && Assembled(t.inner.node) && t.src.c.consumer && !Busy(t.src.c)
    requires t.phase == if t.op.FlatMap? then Handed else Inner
    requires t.mid == FRESH || (t.op.FlatMap? && t.mid == Consume(FRESH) && !t.inside)
    ensures Steps(t, ms) == Some(t1)
    ensures t1.Unary? && t1 == t.(phase := Inner, mid := t1.mid, inside := t1.inside)
    ensures if t.op.FlatMap? then t1.mid.consumer && !t1.mid.pending && (t1.inside ==> t1.mid.inline)
            else t1.mid == t.mid && t1.inside == t.inside
  {
    if t.op.FlatMap? {
      if t.mid == FRESH {
        ms, t1 := HandBefore(t);
      } else {
        ms, t1 := HandAfter(t);
      }
    } else {
      ms, t1 := [], t;
    }
  }

  lemma HandBefore(t: Node) returns (ms: seq<Move>, t3: Node)
    requires t.Unary? && t.inner.Just? && Assembled(t.inner.node) && t.src.c.consumer && !Busy(t.src.c)
    requires t.op.FlatMap? && t.phase.Handed? && t.mid == FRESH
    ensures Steps(t, ms) == Some(t3)
    ensures t3 == t.(phase := Inner, mid := Fire(Consume(Produce(FRESH, Plain(0)))), inside := true)
  {
    var t1 := t.(mid := Produce(t.mid, Plain(0)), inside := false);
    StepsOne(t, SetMid);
    var t2 := t1.(mid := Consume(t1.mid));
    StepThen(t, [Here(SetMid)], t1, AttachMid, t2);
    t3 := t2.(mid := Fire(t2.mid), phase := Inner, inside := true);
    StepThen(t, [Here(SetMid)] + [Here(AttachMid)], t2, FireMid, t3);
    ms := [Here(SetMid)] + [Here(AttachMid)] + [Here(FireMid)];
  }

  lemma HandAfter(t: Node) returns (ms: seq<Move>, t2: Node)
    requires t.Unary? && t.inner.Just? && Assembled(t.inner.node)
    requires t.op.FlatMap? && t.phase.Handed? && t.mid == Consume(FRESH)
    ensures Steps(t, ms) == Some(t2)
    ensures t2 == t.(phase := Inner, mid := Fire(Produce(Consume(FRESH), Plain(0))), inside := false)
  {
    var t1 := t.(mid := Produce(t.mid, Plain(0)), inside := false);
    StepsOne(t, SetMid);
    t2 := t1.(mid := Fire(t1.mid), phase := Inner, inside := false);
    StepThen(t, [Here(SetMid)], t1, FireMid, t2);
    ms := [Here(SetMid)] + [Here(FireMid)];
  }

  /** The inner future is about to be consumed. */
  ghost predicate Opened(t: Node) {
    && t.Unary? && t.phase.Inner? && t.inner.Just? && t.c == FRESH
    && Assembled(t.src) && t.src.c.consumer && !Busy(t.src.c)
    && (t.op.FlatMap? ==> t.mid.consumer && !Busy(t.mid))
  }

  lemma InnerInline(t: Node, v: Value) returns (ms: seq<Move>)
    requires Opened(t) && Gave(t.inner.node, v)
    ensures Gives(t, ms, v)
  {
    var k := t.inner.node;
    var t1 := Step(t, Here(AttachInner)).value;
    StepsOne(t, AttachInner);
    var t2 := Step(t1, Here(FireInner)).value;
    StepThen(t, [Here(AttachInner)], t1, FireInner, t2);
    var t3;
    ms, t3 := SetIfOut(t, [Here(AttachInner)] + [Here(FireInner)], t2);
  }

  lemma InnerPends(t: Node, k: Node, later: seq<Move>, v: Value) returns (ms: seq<Move>, rest: seq<Move>)
    requires Opened(t) && t.inner.node == k && WF(k) && Assembled(k) && k.c == FRESH && Gives(k, later, v)
    ensures Defers(t, ms, rest, v)
  {
    var t1 := t.(inner := Just(Eaten(k)), inside := false);
    StepsOne(t, AttachInner);
    ms := [Here(AttachInner)];
    TakenSteps(k, later);
    var given := Taken(Steps(k, later).value);
    Lift(t1, I, later);
    var t2 := With(t1, I, given);
    var t3 := Step(t2, Here(FireInner)).value;
    StepThen(t1, Lifted(I, later), t2, FireInner, t3);
    var t4;
    rest, t4 := SetIfOut(t1, Lifted(I, later) + [Here(FireInner)], t3);
  }

  // ---------------------------------------------------------------------------------------------
  // Every value can be reached

  /** The node after its user call, which has returned the tree `e`, and after the steps `below` of that
      tree, handed over to its consumer. */
  lemma AfterCall(t: Node, e: Expr, below: seq<Move>) returns (ms: seq<Move>, t3: Node)
    requires Reacting(t) && t.phase.Queued? && UserCall(t.op, t.phase.arg) == Future(e)
    requires Steps(Build(e), below).Some? && Assembled(Steps(Build(e), below).value)
    ensures Steps(t, ms) == Some(t3) && Opened(t3) && t3.inner.node == Steps(Build(e), below).value
  {
    var t1 := Step(t, Here(RunTask)).value;
    StepsOne(t, RunTask);
    Lift(t1, I, below);
    StepsConcat(t, [Here(RunTask)], Lifted(I, below));
    var t2 := With(t1, I, Steps(Build(e), below).value);
    var hand;
    hand, t3 := Hand(t2);
    StepsConcat(t, [Here(RunTask)] + Lifted(I, below), hand);
    ms := [Here(RunTask)] + Lifted(I, below) + hand;
  }

  lemma CallGivesPlainly(t: Node, v: Value) returns (ms: seq<Move>)
    requires Reacting(t) && t.phase.Queued? && UserCall(t.op, t.phase.arg) == Plainly(v)
    ensures Gives(t, ms, v)
  {
    StepsOne(t, RunTask);
    var t2;
    ms, t2 := SetIfOut(t, [Here(RunTask)], Step(t, Here(RunTask)).value);
  }

  /** A combinator whose callback has been invoked gives each of its values. */
  lemma {:induction false} FinishNow(t: Node, u: Value, v: Value, n: nat) returns (ms: seq<Move>)
    requires ReactingTo(t, u) && v in Reacted(t.op, t.rt, u, n).all && ReactionFits(t.op, u, n)
    ensures Gives(t, ms, v)
    decreases n, 3
  {
    if React(t.op, u).Pass? {
      var t2;
      ms, t2 := SetIfOut(t, [], t);
    } else if UserCall(t.op, t.phase.arg).Plainly? {
      ms := CallGivesPlainly(t, v);
    } else {
      var e := UserCall(t.op, t.phase.arg).e;
      var below := AttainNow(e, v, n);
      var open, t3 := AfterCall(t, e, below);
      var rest := InnerInline(t3, v);
      ms := open + rest;
      ComposeGives(t, open, t3, rest, v);
    }
  }

  /** A combinator whose callback has been invoked at once, and that may still give `v` late. */
  lemma {:induction false} FinishLate(t: Node, u: Value, v: Value, n: nat) returns (ms: seq<Move>, later: seq<Move>)
    requires ReactingTo(t, u) && t.mid == FRESH && v in Reacted(t.op, t.rt, u, n).late && ReactionFits(t.op, u, n)
    requires React(t.op, u).Call? ==> t.inside == t.rt.Inline?
    ensures Defers(t, ms, later, v)
    decreases n, 4
  {
    if t.rt.Pool? {
      var t1;
      ms, t1 := PutFlatten(t);
      later := FinishNow(t1, u, v, n);
    } else {
      var e := UserCall(t.op, t.phase.arg).e;
      var below, rest := AttainLate(e, v, n);
      BuildWF(e);
      StepsWF(Build(e), below);
      var open, t3 := AfterCall(t, e, below);
      var pend;
      pend, later := InnerPends(t3, Steps(Build(e), below).value, rest, v);
      ms := open + pend;
      ComposeDefers(t, open, t3, pend, later, v);
    }
  }

  lemma {:induction false} ApplyNow(e: Expr, v: Value, n: nat) returns (ms: seq<Move>)
    requires n > 0 && e.Apply? && Fits(e, n) && v in Denote(e, n)
    ensures Gives(Build(e), ms, v)
    decreases n, 1
  {
    assert v in ReactedAll(e.op, e.rt, Given(e.src, n - 1), n - 1).all;
    var u :| u in Given(e.src, n - 1).all && v in Reacted(e.op, e.rt, u, n - 1).all;
    var below := AttainNow(e.src, u, n - 1);
    var lifted := LiftUnary(e.op, e.rt, Build(e.src), below);
    var k := Steps(Build(e.src), below).value;
    var feed, t := SourceInline(e.op, e.rt, k, u);
    StepsConcat(Build(e), lifted, feed);
    var rest := FinishNow(t, u, v, n - 1);
    ms := lifted + feed + rest;
    ComposeGives(Build(e), lifted + feed, t, rest, v);
  }

  lemma {:induction false} ApplyLate(e: Expr, v: Value, n: nat) returns (ms: seq<Move>, later: seq<Move>)
    requires n > 0 && e.Apply? && Fits(e, n) && v in Given(e, n).late
    ensures Defers(Build(e), ms, later, v)
    decreases n, 1
  {
    var a := Given(e.src, n - 1);
    GivenLate(e.src, n - 1);
    if u :| u in a.late && v in Reacted(e.op, e.rt, u, n - 1).all {
      ms, later := SourceLate(e, u, v, n);
    } else {
      var u :| u in a.all && v in Reacted(e.op, e.rt, u, n - 1).late;
      var below := AttainNow(e.src, u, n - 1);
      var lifted := LiftUnary(e.op, e.rt, Build(e.src), below);
      var feed, t := SourceInline(e.op, e.rt, Steps(Build(e.src), below).value, u);
      StepsConcat(Build(e), lifted, feed);
      var rest;
      rest, later := FinishLate(t, u, v, n - 1);
      ms := lifted + feed + rest;
      ComposeDefers(Build(e), lifted + feed, t, rest, later, v);
    }
  }

  lemma {:induction false} SourceLate(e: Expr, u: Value, v: Value, n: nat) returns (ms: seq<Move>, later: seq<Move>)
    requires n > 0 && e.Apply? && Fits(e, n)
    requires u in Given(e.src, n - 1).late && u in Denote(e.src, n - 1) && v in Reacted(e.op, e.rt, u, n - 1).all
    ensures Defers(Build(e), ms, later, v)
    decreases n, 0
  {
    var below, come := AttainLate(e.src, u, n - 1);
    BuildWF(e.src);
    StepsWF(Build(e.src), below);
    var k := Steps(Build(e.src), below).value;
    var lifted := LiftUnary(e.op, e.rt, Build(e.src), below);
    var pend, t := SourcePends(e.op, e.rt, k);
    StepsConcat(Build(e), lifted, pend);
    ms := lifted + pend;
    var arrive, t2 := SourceComes(t, k, come, u);
    var rest := FinishNow(t2, u, v, n - 1);
    later := arrive + rest;
    ComposeGives(t, arrive, t2, rest, v);
  }

  /** Both inputs as they are when the combinator consumes them. */
  lemma JoinGives(bop: BinaryOp, l: Expr, ml: seq<Move>, r: Expr, mr: seq<Move>, rest: seq<Move>, v: Value)
    returns (ms: seq<Move>)
    requires Steps(Build(l), ml).Some? && Steps(Build(r), mr).Some?
    requires Gives(Meet(bop, Steps(Build(l), ml).value, Steps(Build(r), mr).value), rest, v)
    ensures Gives(Build(Join(bop, l, r)), ms, v)
  {
    var both := Together(bop, Build(l), Build(r), ml, mr);
    ms := both + rest;
    var met := Meet(bop, Steps(Build(l), ml).value, Steps(Build(r), mr).value);
    ComposeGives(Meet(bop, Build(l), Build(r)), both, met, rest, v);
  }

  lemma JoinDefers(bop: BinaryOp, l: Expr, ml: seq<Move>, r: Expr, mr: seq<Move>, rest: seq<Move>, later: seq<Move>,
                   v: Value)
    returns (ms: seq<Move>)
    requires Steps(Build(l), ml).Some? && Steps(Build(r), mr).Some?
    requires Defers(Meet(bop, Steps(Build(l), ml).value, Steps(Build(r), mr).value), rest, later, v)
    ensures Defers(Build(Join(bop, l, r)), ms, later, v)
  {
    var both := Together(bop, Build(l), Build(r), ml, mr);
    ms := both + rest;
    var t := Meet(bop, Steps(Build(l), ml).value, Steps(Build(r), mr).value);
    ComposeDefers(Meet(bop, Build(l), Build(r)), both, t, rest, later, v);
  }

  /** Both inputs set in time. */
  lemma {:induction false} BothNow(bop: BinaryOp, l: Expr, u: Value, r: Expr, w: Value, n: nat) returns (ms: seq<Move>)
    requires Fits(l, n) && Fits(r, n) && u in Denote(l, n) && w in Denote(r, n)
    ensures Gives(Build(Join(bop, l, r)), ms, if bop.Both? then Pair(u, w) else if bop.FirstOk? && u.Err? then w else u)
    decreases n, 3
  {
    var ml := AttainNow(l, u, n);
    var mr := AttainNow(r, w, n);
    var rest := NowNow(bop, Steps(Build(l), ml).value, u, Steps(Build(r), mr).value, w);
    ms := JoinGives(bop, l, ml, r, mr, rest, if bop.Both? then Pair(u, w) else if bop.FirstOk? && u.Err? then w else u);
  }

  /** The left input late, the right one in time and decisive. */
  lemma {:induction false} OnlyRight(bop: BinaryOp, l: Expr, u: Value, r: Expr, w: Value, n: nat)
    returns (ms: seq<Move>)
    requires bop.First? || (bop.FirstOk? && !w.Err?)
    requires Fits(l, n) && Fits(r, n) && u in Given(l, n).late && w in Denote(r, n)
    ensures Gives(Build(Join(bop, l, r)), ms, w)
    decreases n, 3
  {
    var ml, later := AttainLate(l, u, n);
    var mr := AttainNow(r, w, n);
    var rest := RightNow(bop, Steps(Build(l), ml).value, Steps(Build(r), mr).value, w);
    ms := JoinGives(bop, l, ml, r, mr, rest, w);
  }

  /** The left input late and last. */
  lemma {:induction false} LeftLast(bop: BinaryOp, l: Expr, u: Value, r: Expr, w: Value, n: nat)
    returns (ms: seq<Move>, rest: seq<Move>)
    requires bop.Both? || (bop.FirstOk? && w.Err?)
    requires Fits(l, n) && Fits(r, n) && u in Given(l, n).late && w in Denote(r, n)
    ensures Defers(Build(Join(bop, l, r)), ms, rest, if bop.Both? then Pair(u, w) else u)
    decreases n, 3
  {
    var ml, later := AttainLate(l, u, n);
    var mr := AttainNow(r, w, n);
    BuildWF(l);
    StepsWF(Build(l), ml);
    var all;
    all, rest := LateNow(bop, Steps(Build(l), ml).value, later, u, Steps(Build(r), mr).value, w);
    ms := JoinDefers(bop, l, ml, r, mr, all, rest, if bop.Both? then Pair(u, w) else u);
  }

  /** The left input in time, the right one late and last. */
  lemma {:induction false} RightLast(bop: BinaryOp, l: Expr, u: Value, r: Expr, w: Value, n: nat)
    returns (ms: seq<Move>, rest: seq<Move>)
    requires bop.Both? || (bop.FirstOk? && u.Err?)
    requires Fits(l, n) && Fits(r, n) && u in Denote(l, n) && w in Given(r, n).late
    ensures Defers(Build(Join(bop, l, r)), ms, rest, if bop.Both? then Pair(u, w) else w)
    decreases n, 3
  {
    var ml := AttainNow(l, u, n);
    var mr, later := AttainLate(r, w, n);
    BuildWF(r);
    StepsWF(Build(r), mr);
    var all;
    all, rest := NowLate(bop, Steps(Build(l), ml).value, u, Steps(Build(r), mr).value, later, w);
    ms := JoinDefers(bop, l, ml, r, mr, all, rest, if bop.Both? then Pair(u, w) else w);
  }

  /** Both inputs late, the right one first. */
  lemma {:induction false} RightFirst(bop: BinaryOp, l: Expr, u: Value, r: Expr, w: Value, n: nat)
    returns (ms: seq<Move>, rest: seq<Move>)
    requires bop.First? || (bop.FirstOk? && !w.Err?)
    requires Fits(l, n) && Fits(r, n) && u in Given(l, n).late && w in Given(r, n).late
    ensures Defers(Build(Join(bop, l, r)), ms, rest, w)
    decreases n, 3
  {
    var ml, never := AttainLate(l, u, n);
    var mr, later := AttainLate(r, w, n);
    BuildWF(r);
    StepsWF(Build(r), mr);
    var all;
    all, rest := LateLate(bop, Steps(Build(l), ml).value, Steps(Build(r), mr).value, later, w);
    ms := JoinDefers(bop, l, ml, r, mr, all, rest, w);
  }

  /** The left input late and first. */
  lemma {:induction false} LeftFirst(bop: BinaryOp, l: Expr, u: Value, r: Expr, w: Value, n: nat)
    returns (ms: seq<Move>, rest: seq<Move>)
    requires bop.First? || (bop.FirstOk? && !u.Err?)
    requires Fits(l, n) && Fits(r, n) && u in Given(l, n).late && w in Denote(r, n)
    ensures Defers(Build(Join(bop, l, r)), ms, rest, u)
    decreases n, 3
  {
    var ml, later := AttainLate(l, u, n);
    var mr := AttainNow(r, w, n);
    BuildWF(l);
    StepsWF(Build(l), ml);
    var all;
    all, rest := LeftMidway(bop, Steps(Build(l), ml).value, later, u, Steps(Build(r), mr).value, w);
    ms := JoinDefers(bop, l, ml, r, mr, all, rest, u);
  }

  /** `FirstOk`: a success of an input, or the error that comes last. */
  lemma {:induction false} FirstOkNow(l: Expr, r: Expr, v: Value, n: nat) returns (ms: seq<Move>)
    requires Fits(l, n) && Fits(r, n) && v in Joined(FirstOk, Given(l, n), Given(r, n)).all
    ensures Gives(Build(Join(FirstOk, l, r)), ms, v)
    decreases n, 4
  {
    GivenSome(r, n);
    GivenLate(l, n);
    if v in Denote(l, n) && !v.Err? {
      var w :| w in Denote(r, n);
      ms := BothNow(FirstOk, l, v, r, w, n);
    } else if v in Denote(r, n) && HasErr(Denote(l, n)) {
      var u :| u in Denote(l, n) && u.Err?;
      ms := BothNow(FirstOk, l, u, r, v, n);
    } else if !v.Err? {
      var u :| u in Given(l, n).late;
      ms := OnlyRight(FirstOk, l, u, r, v, n);
    } else {
      var w :| w in Denote(r, n) && w.Err?;
      var all, rest := LeftLast(FirstOk, l, v, r, w, n);
      DefersGives(Build(Join(FirstOk, l, r)), all, rest, v);
      ms := all + rest;
    }
  }

  lemma {:induction false} FirstOkLate(l: Expr, r: Expr, v: Value, n: nat) returns (ms: seq<Move>, later: seq<Move>)
    requires Fits(l, n) && Fits(r, n) && v in Joined(FirstOk, Given(l, n), Given(r, n)).late
    ensures Defers(Build(Join(FirstOk, l, r)), ms, later, v)
    decreases n, 4
  {
    GivenSome(r, n);
    if v in Given(l, n).late && !v.Err? {
      var w :| w in Denote(r, n);
      ms, later := LeftFirst(FirstOk, l, v, r, w, n);
    } else if v in Given(r, n).late && HasErr(Denote(l, n)) {
      var u :| u in Denote(l, n) && u.Err?;
      ms, later := RightLast(FirstOk, l, u, r, v, n);
    } else if !v.Err? {
      var u :| u in Given(l, n).late;
      ms, later := RightFirst(FirstOk, l, u, r, v, n);
    } else {
      var w :| w in Denote(r, n) && w.Err?;
      ms, later := LeftLast(FirstOk, l, v, r, w, n);
    }
  }

  lemma {:induction false} JoinNow(bop: BinaryOp, l: Expr, r: Expr, v: Value, n: nat) returns (ms: seq<Move>)
    requires Fits(l, n) && Fits(r, n) && v in Joined(bop, Given(l, n), Given(r, n)).all
    ensures Gives(Build(Join(bop, l, r)), ms, v)
    decreases n, 5
  {
    if bop.Both? {
      var u, w :| u in Denote(l, n) && w in Denote(r, n) && v == Pair(u, w);
      ms := BothNow(bop, l, u, r, w, n);
    } else if bop.FirstOk? {
      ms := FirstOkNow(l, r, v, n);
    } else if v in Denote(l, n) {
      GivenSome(r, n);
      var w :| w in Denote(r, n);
      ms := BothNow(bop, l, v, r, w, n);
    } else {
      var u :| u in Given(l, n).late;
      ms := OnlyRight(bop, l, u, r, v, n);
    }
  }

  lemma {:induction false} JoinLate(bop: BinaryOp, l: Expr, r: Expr, v: Value, n: nat)
    returns (ms: seq<Move>, later: seq<Move>)
    requires Fits(l, n) && Fits(r, n) && v in Joined(bop, Given(l, n), Given(r, n)).late
    ensures Defers(Build(Join(bop, l, r)), ms, later, v)
    decreases n, 5
  {
    if bop.FirstOk? {
      ms, later := FirstOkLate(l, r, v, n);
    } else if bop.Both? {
      if v in Pairs(Given(l, n).late, Denote(r, n)) {
        var u, w :| u in Given(l, n).late && w in Denote(r, n) && v == Pair(u, w);
        ms, later := LeftLast(bop, l, u, r, w, n);
      } else {
        var u, w :| u in Denote(l, n) && w in Given(r, n).late && v == Pair(u, w);
        ms, later := RightLast(bop, l, u, r, w, n);
      }
    } else if v in Given(l, n).late {
      GivenSome(r, n);
      var w :| w in Denote(r, n);
      ms, later := LeftFirst(bop, l, v, r, w, n);
    } else {
      var u :| u in Given(l, n).late;
      ms, later := RightFirst(bop, l, u, r, v, n);
    }
  }

  /** Some steps put the tree together and set it to each value it denotes. */
  lemma {:induction false} AttainNow(e: Expr, v: Value, n: nat) returns (ms: seq<Move>)
    requires Fits(e, n) && v in Denote(e, n)
    ensures Gives(Build(e), ms, v)
    decreases n, 2
  {
    if e.Ready? {
      ms := [];
    } else if e.Spawn? {
      StepsOne(Build(e), RunTask);
      var t;
      ms, t := SetIfOut(Build(e), [Here(RunTask)], Step(Build(e), Here(RunTask)).value);
    } else if e.Apply? {
      ms := ApplyNow(e, v, n);
    } else {
      ms := JoinNow(e.bop, e.left, e.right, v, n - 1);
    }
  }

  /** And some put it together without setting it, and set it later, to each of its late values. */
  lemma {:induction false} AttainLate(e: Expr, v: Value, n: nat) returns (ms: seq<Move>, later: seq<Move>)
    requires Fits(e, n) && v in Given(e, n).late
    ensures Defers(Build(e), ms, later, v)
    decreases n, 2
  {
    if e.Spawn? {
      ms := [];
      StepsOne(Build(e), RunTask);
      var t;
      later, t := SetIfOut(Build(e), [Here(RunTask)], Step(Build(e), Here(RunTask)).value);
    } else if e.Apply? {
      ms, later := ApplyLate(e, v, n);
    } else {
      ms, later := JoinLate(e.bop, e.left, e.right, v, n - 1);
    }
  }

  // ---------------------------------------------------------------------------------------------
  // Complete schedules

  ghost predicate Complete(e: Expr, moves: seq<SystemMove>) {
    Schedule(Start(e), moves).Some? && forall m :: SystemStep(Schedule(Start(e), moves).value, m).None?
  }

  function Delivered(e: Expr, moves: seq<SystemMove>): seq<Value> {
    match Schedule(Start(e), moves) case Some(s) => s.delivered case None => []
  }

  /** Some complete schedule delivers `v`. */
  ghost predicate Delivers(e: Expr, v: Value) { exists moves :: Complete(e, moves) && Delivered(e, moves) == [v] }

  function InTree(ms: seq<Move>): seq<SystemMove> { seq(|ms|, i requires 0 <= i < |ms| => Tree(ms[i])) }

  lemma {:induction false} ScheduleTree(e: Expr, ms: seq<Move>)
    requires Steps(Build(e), ms).Some?
    ensures Schedule(Start(e), InTree(ms)) == Some(System(Steps(Build(e), ms).value, []))
  {
    if ms != [] {
      ScheduleTree(e, ms[..|ms| - 1]);
      assert InTree(ms)[..|ms| - 1] == InTree(ms[..|ms| - 1]);
    }
  }

  lemma ScheduleThen(e: Expr, moves: seq<SystemMove>, m: SystemMove)
    requires Schedule(Start(e), moves).Some?
    ensures Schedule(Start(e), moves + [m]) == SystemStep(Schedule(Start(e), moves).value, m)
  {
    assert (moves + [m])[..|moves|] == moves;
  }

  /** Every schedule can be completed, and what was delivered stays delivered. */
  lemma {:induction false} Completes(e: Expr, moves: seq<SystemMove>, n: nat) returns (all: seq<SystemMove>)
    requires Fits(e, n) && Schedule(Start(e), moves).Some?
    ensures Complete(e, all) && Delivered(e, moves) <= Delivered(e, all)
    decreases Work(Schedule(Start(e), moves).value.root, n)
  {
    var s := Schedule(Start(e), moves).value;
    ScheduleOk(e, moves, n);
    if m :| SystemStep(s, m).Some? {
      ScheduleThen(e, moves, m);
      SystemStepOk(s, m, n);
      all := Completes(e, moves + [m], n);
    } else {
      all := moves;
    }
  }

  /** Once the tree has given `v`, the consumer comes and is called. */
  lemma ConsumesRoot(e: Expr, ms: seq<Move>, v: Value) returns (moves: seq<SystemMove>)
    requires Gives(Build(e), ms, v)
    ensures Schedule(Start(e), moves).Some? && Delivered(e, moves) == [v]
  {
    ScheduleTree(e, ms);
    ScheduleThen(e, InTree(ms), ConsumeRoot);
    ScheduleThen(e, InTree(ms) + [ConsumeRoot], FireRoot);
    moves := InTree(ms) + [ConsumeRoot] + [FireRoot];
  }

  lemma Attained(e: Expr, v: Value, n: nat) returns (moves: seq<SystemMove>)
    requires Fits(e, n) && v in Denote(e, n)
    ensures Complete(e, moves) && Delivered(e, moves) == [v]
  {
    var ms := AttainNow(e, v, n);
    var some := ConsumesRoot(e, ms, v);
    moves := Completes(e, some, n);
    CompleteScheduleDelivers(e, moves, n);
  }

  /** The values that complete schedules deliver are exactly those that the tree denotes. */
  lemma DenotationIsExact(e: Expr, v: Value, n: nat)
    requires Fits(e, n)
    ensures v in Denote(e, n) <==> Delivers(e, v)
  {
    if v in Denote(e, n) { var moves := Attained(e, v, n); }
    forall moves | Complete(e, moves) && Delivered(e, moves) == [v] ensures v in Denote(e, n) {
      CompleteScheduleDelivers(e, moves, n);
    }
  }

  // ---------------------------------------------------------------------------------------------
  // Which input of First can decide

  /** `First` gives a value that only the right input has if and only if the left input may come late. */
  lemma RightDecidesIff(l: Expr, r: Expr, w: Value, n: nat)
    requires Fits(Join(First, l, r), n) && w in Denote(r, n - 1) && w !in Denote(l, n - 1)
    ensures Delivers(Join(First, l, r), w) <==> Given(l, n - 1).late != {}
  {
    DenotationIsExact(Join(First, l, r), w, n);
  }

  /** So `First` can give every value of either input if and only if the left one may come late, or the
      right one has nothing to add. */
  lemma FirstIsUnionIff(l: Expr, r: Expr, n: nat)
    requires Fits(Join(First, l, r), n)
    ensures (forall v :: v in Denote(l, n - 1) + Denote(r, n - 1) ==> Delivers(Join(First, l, r), v))
       <==> (Given(l, n - 1).late != {} || Denote(r, n - 1) <= Denote(l, n - 1))
  {
    forall v | v in Denote(l, n - 1) + Denote(r, n - 1)
      ensures Delivers(Join(First, l, r), v) <==> (v in Denote(l, n - 1) || Given(l, n - 1).late != {})
    {
      DenotationIsExact(Join(First, l, r), v, n);
    }
    if Given(l, n - 1).late == {} && !(Denote(r, n - 1) <= Denote(l, n - 1)) {
      var w :| w in Denote(r, n - 1) && w !in Denote(l, n - 1);
      assert !Delivers(Join(First, l, r), w);
    }
  }

  /** A ready left input decides, whatever the right one is: that one's values are never delivered. */
  lemma ReadyDecides(v: Value, r: Expr, moves: seq<SystemMove>, n: nat)
    requires Fits(Join(First, Ready(v), r), n) && Complete(Join(First, Ready(v), r), moves)
    ensures Delivered(Join(First, Ready(v), r), moves) == [v]
  {
    CompleteScheduleDelivers(Join(First, Ready(v), r), moves, n);
    assert Given(Ready(v), n - 1) == Answers({v}, {});
  }

  /** `FirstOk` gives an error that only the left input has if and only if it may come late, so that it may
      come last, and the right input may fail as well. */
  lemma LeftErrorIff(l: Expr, r: Expr, v: Value, n: nat)
    requires Fits(Join(FirstOk, l, r), n) && v.Err? && v in Denote(l, n - 1) && v !in Denote(r, n - 1)
    ensures Delivers(Join(FirstOk, l, r), v) <==> v in Given(l, n - 1).late && HasErr(Denote(r, n - 1))
  {
    DenotationIsExact(Join(FirstOk, l, r), v, n);
  }

  /** It gives an error that only the right input has if and only if the left one may fail as well. */
  lemma RightErrorIff(l: Expr, r: Expr, v: Value, n: nat)
    requires Fits(Join(FirstOk, l, r), n) && v.Err? && v in Denote(r, n - 1) && v !in Denote(l, n - 1)
    ensures Delivers(Join(FirstOk, l, r), v) <==> HasErr(Denote(l, n - 1))
  {
    DenotationIsExact(Join(FirstOk, l, r), v, n);
    GivenLate(l, n - 1);
  }

  /** In general, an error is given if and only if it can come last in a schedule in which both inputs fail. */
  lemma ErrorIff(l: Expr, r: Expr, v: Value, n: nat)
    requires Fits(Join(FirstOk, l, r), n) && v.Err?
    ensures Delivers(Join(FirstOk, l, r), v)
       <==> || (v in Given(l, n - 1).late && HasErr(Denote(r, n - 1)))
            || (v in Denote(r, n - 1) && HasErr(Denote(l, n - 1)))
  {
    DenotationIsExact(Join(FirstOk, l, r), v, n);
  }

  /** `FirstOk` gives a success that only the right input has if and only if the left one may come late or
      fail; the left one's successes can always be given. */
  lemma SuccessIff(l: Expr, r: Expr, v: Value, n: nat)
    requires Fits(Join(FirstOk, l, r), n) && !v.Err?
    requires v in Denote(l, n - 1) + Denote(r, n - 1)
    ensures Delivers(Join(FirstOk, l, r), v)
       <==> v in Denote(l, n - 1) || Given(l, n - 1).late != {} || HasErr(Denote(l, n - 1))
  {
    DenotationIsExact(Join(FirstOk, l, r), v, n);
  }

  /** Of two ready errors `FirstOk` gives the right one. */
  lemma LastErrorDecides(a: Value, b: Value, moves: seq<SystemMove>)
    requires Complete(Join(FirstOk, Ready(Err(a)), Ready(Err(b))), moves)
    ensures Delivered(Join(FirstOk, Ready(Err(a)), Ready(Err(b))), moves) == [Err(b)]
  {
    var e := Join(FirstOk, Ready(Err(a)), Ready(Err(b)));
    assert Fits(Ready(Err(a)), 1) && Fits(Ready(Err(b)), 1);
    CompleteScheduleDelivers(e, moves, 2);
    var l, r := Given(Ready(Err(a)), 1), Given(Ready(Err(b)), 1);
    assert Given(e, 2) == Joined(FirstOk, l, r);
    assert Given(Ready(Err(a)), 1) == Answers({Err(a)}, {}) && Given(Ready(Err(b)), 1) == Answers({Err(b)}, {});
  }

  /** All tasks of the tree, and of the trees that its user functions return, run inline. */
  ghost predicate AllInline(e: Expr, n: nat)
    decreases n, 0
  {
    && n > 0
    && (e.Spawn? ==> e.rt.Inline?)
    && (e.Apply? ==> e.rt.Inline? && AllInline(e.src, n - 1) && CallsInline(e.op, Denote(e.src, n - 1), n - 1))
    && (e.Join? ==> AllInline(e.left, n - 1) && AllInline(e.right, n - 1))
  }

  ghost predicate CallsInline(op: UnaryOp, s: set<Value>, n: nat)
    decreases n, 2
  {
    forall v :: v in s ==> CallInline(op, v, n)
  }

  ghost predicate CallInline(op: UnaryOp, v: Value, n: nat)
    decreases n, 1
  {
    React(op, v).Call? && UserCall(op, React(op, v).arg).Future? ==> AllInline(UserCall(op, React(op, v).arg).e, n)
  }

  /** Such a tree is set as soon as it has been put together. */
  lemma {:induction false} InlineIsNeverLate(e: Expr, n: nat)
    requires AllInline(e, n)
    ensures Given(e, n).late == {}
    decreases n
  {
    if e.Apply? {
      InlineIsNeverLate(e.src, n - 1);
      var a := Given(e.src, n - 1);
      forall v | v in a.all ensures Reacted(e.op, e.rt, v, n - 1).late == {} {
        assert CallInline(e.op, v, n - 1);
        if React(e.op, v).Call? && UserCall(e.op, React(e.op, v).arg).Future? {
          InlineIsNeverLate(UserCall(e.op, React(e.op, v).arg).e, n - 1);
        }
      }
    } else if e.Join? {
      InlineIsNeverLate(e.left, n - 1);
      InlineIsNeverLate(e.right, n - 1);
    }
  }
}
