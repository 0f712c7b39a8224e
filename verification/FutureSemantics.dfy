/**
 What every single future in a tree computes, in every schedule, from what its own inputs have delivered; and
 the equations of the denotation. Both are stated by cases on the combinators.
 */
module FutureSemantics {
  import opened Common
  import opened FutureSafety
  import opened FutureSteps
  import opened FutureTree

  // ---------------------------------------------------------------------------------------------
  // The equations of the denotation

  /** What a combinator may give for the value `v` of its input. */
  ghost function Gives(op: UnaryOp, v: Value, n: nat): set<Value> {
    match op
    case Map(f) => {f(v)}
    case MapOk(f) => if v.Err? then {v} else {Ok(f(Payload(v)))}
    case FlatMap(g) => Denote(g(v), n)
    case AndThen(g) => if v.Err? then {v} else Denote(g(Payload(v)), n)
    case OrElse(g) => if v.Err? then Denote(g(v.error), n) else {v}
  }

  /** A combinator denotes what it may give for some value that its input denotes, and nothing else. */
  lemma ApplyDenotes(op: UnaryOp, rt: Runtime, src: Expr, n: nat)
    ensures Denote(Apply(op, rt, src), n + 1) == set v, w | v in Denote(src, n) && w in Gives(op, v, n) :: w
  {
    assert Given(Apply(op, rt, src), n + 1) == ReactedAll(op, rt, Given(src, n), n);
    forall v ensures Reacted(op, rt, v, n).all == Gives(op, v, n) { ReactedGives(op, rt, v, n); }
    var all := ReactedAll(op, rt, Given(src, n), n).all;
    forall w ensures w in all <==> w in set v, w | v in Denote(src, n) && w in Gives(op, v, n) :: w {
      if v :| v in Denote(src, n) && w in Gives(op, v, n) { assert w in Reacted(op, rt, v, n).all; }
      if w in all { var v :| v in Given(src, n).all && w in Reacted(op, rt, v, n).all; }
    }
  }

  lemma ReactedGives(op: UnaryOp, rt: Runtime, v: Value, n: nat)
    ensures Reacted(op, rt, v, n).all == Gives(op, v, n)
  {
  }

  /** A value, a task, and a pair. */
  lemma OthersDenote(v: Value, rt: Runtime, user: () -> Value, l: Expr, r: Expr, n: nat)
    ensures Denote(Ready(v), n + 1) == {v} && Denote(Spawn(rt, user), n + 1) == {user()}
    ensures Denote(Join(Both, l, r), n + 1) == set x, y | x in Denote(l, n) && y in Denote(r, n) :: Pair(x, y)
  {
    assert Given(Join(Both, l, r), n + 1) == Joined(Both, Given(l, n), Given(r, n));
  }

  // ---------------------------------------------------------------------------------------------
  // What a future computes in a schedule

  /** Whether a combinator calls the user function for the value `v`, and with what. */
  predicate CallsUser(op: UnaryOp, v: Value) {
    match op
    case Map(_) => true
    case FlatMap(_) => true
    case MapOk(_) => !v.Err?
    case AndThen(_) => !v.Err?
    case OrElse(_) => v.Err?
  }

  function Argument(op: UnaryOp, v: Value): Value
    requires CallsUser(op, v)
  {
    match op
    case Map(_) => v
    case FlatMap(_) => v
    case MapOk(_) => Payload(v)
    case AndThen(_) => Payload(v)
    case OrElse(_) => v.error
  }

  /** What a future has been, or is about to be, set to. */
  function Yield(t: Node): Option<Value> { if t.phase.Out? then Some(t.phase.w) else t.c.result }

  /** The value `w` of a unary combinator over `v`. */
  predicate RightValue(op: UnaryOp, v: Value, inner: Maybe, w: Value) {
    if !CallsUser(op, v) then w == v
    else match op
      case Map(f) => w == f(v)
      case MapOk(f) => w == Ok(f(Payload(v)))
      case _ => inner.Just? && inner.node.c.result == Some(w)
  }

  /** The future that the user function returns. */
  function Continuation(op: UnaryOp, v: Value): Option<Expr> {
    match op
    case FlatMap(g) => Some(g(v))
    case AndThen(g) => if v.Err? then None else Some(g(Payload(v)))
    case OrElse(g) => if v.Err? then Some(g(v.error)) else None
    case _ => None
  }

  /** A unary combinator does nothing before its input is set; then it calls the user function exactly if it has
      to, with the right argument, and gives the right value. */
  ghost predicate UnaryComputes(t: Node)
    requires t.Unary?
  {
    var v := t.src.c.result;
    && (!t.phase.Wait? ==> v.Some?)
    && (t.phase.Queued? ==> CallsUser(t.op, v.value) && t.phase.arg == Argument(t.op, v.value))
    && (t.phase.Wait? || t.phase.Queued? ==> t.calls == 0)
    && (!t.phase.Wait? && !t.phase.Queued? ==> t.calls == if CallsUser(t.op, v.value) then 1 else 0)
    && (Yield(t).Some? ==> v.Some? && RightValue(t.op, v.value, t.inner, Yield(t).value))
    && (t.inner.Just? ==> v.Some? && Continuation(t.op, v.value).Some?)
  }

  ghost predicate BinaryComputes(t: Node)
    requires t.Binary?
  {
    var l, r, w := t.left.c.result, t.right.c.result, Yield(t);
    w.Some? ==>
      match t.bop
      case Both => l.Some? && r.Some? && w.value == Pair(l.value, r.value)
      case First => w == l || w == r
      case FirstOk => (w == l || w == r) && (w.value.Err? ==> Failed(t.left) && Failed(t.right))
  }

  /** The node `t` has been built for `e`, and every future in it, those that user functions have returned
      included, computes what it should. */
  ghost predicate Computes(t: Node, e: Expr)
    decreases t
  {
    match e
    case Ready(v) => t.Source? && t.phase.Done? && t.c.result == Some(v) && t.calls == 0
    case Spawn(_, user) =>
      && t.Source? && t.user == user && (Yield(t).Some? ==> Yield(t).value == user())
      && t.calls == (if t.phase.Queued? then 0 else 1)
    case Apply(op, _, src) =>
      && t.Unary? && t.op == op && Computes(t.src, src) && UnaryComputes(t)
      && (t.inner.Just? ==> Computes(t.inner.node, Continuation(op, t.src.c.result.value).value))
    case Join(bop, l, r) =>
      t.Binary? && t.bop == bop && Computes(t.left, l) && Computes(t.right, r) && BinaryComputes(t)
  }

  lemma {:induction false} BuildComputes(e: Expr)
    ensures Computes(Build(e), e)
  {
    match e
    case Apply(_, _, src) => BuildComputes(src);
    case Join(_, l, r) => BuildComputes(l); BuildComputes(r);
    case _ =>
  }

  // ---------------------------------------------------------------------------------------------
  // One step

  lemma ContractComputes(t: Node, e: Expr, c: Contract)
    requires Computes(t, e) && c.result == t.c.result
    ensures Computes(Update(t, c), e)
  {
  }

  lemma SetComputes(t: Node, e: Expr)
    requires WF(t) && Computes(t, e) && Step(t, Here(SetPromise)).Some?
    ensures Computes(Step(t, Here(SetPromise)).value, e)
  {
  }

  lemma SourceComputes(t: Node, e: Expr, a: Action)
    requires WF(t) && Computes(t, e) && t.Source? && StepSource(t, a).Some?
    ensures Computes(StepSource(t, a).value, e)
  {
  }

  lemma FireComputes(t: Node, e: Expr)
    requires WF(t) && Computes(t, e) && t.Unary? && StepUnary(t, FireLeft).Some?
    ensures Computes(StepUnary(t, FireLeft).value, e)
  {
    ContractComputes(t.src, e.src, Fire(t.src.c));
  }

  lemma RunComputes(t: Node, e: Expr)
    requires WF(t) && Computes(t, e) && t.Unary? && StepUnary(t, RunTask).Some?
    ensures Computes(StepUnary(t, RunTask).value, e)
  {
    if UserCall(t.op, t.phase.arg).Future? { BuildComputes(UserCall(t.op, t.phase.arg).e); }
  }

  lemma InnerComputes(t: Node, e: Expr, a: Action)
    requires WF(t) && Computes(t, e) && t.Unary? && StepUnary(t, a).Some? && (a.AttachInner? || a.FireInner?)
    ensures Computes(StepUnary(t, a).value, e)
  {
    var c := t.inner.node.c;
    ContractComputes(t.inner.node, Continuation(t.op, t.src.c.result.value).value,
                     if a.AttachInner? then Consume(c) else Fire(c));
  }

  lemma UnaryStepComputes(t: Node, e: Expr, a: Action)
    requires WF(t) && Computes(t, e) && t.Unary? && StepUnary(t, a).Some?
    ensures Computes(StepUnary(t, a).value, e)
  {
    match a
    case FireLeft => FireComputes(t, e);
    case RunTask => RunComputes(t, e);
    case AttachInner => InnerComputes(t, e, a);
    case FireInner => InnerComputes(t, e, a);
    case AttachLeft => ContractComputes(t.src, e.src, Consume(t.src.c));
    case _ =>
  }

  lemma LeftComputes(t: Node, e: Expr, a: Action)
    requires WF(t) && Computes(t, e) && t.Binary? && StepBinary(t, a).Some? && (a.AttachLeft? || a.FireLeft?)
    ensures Computes(StepBinary(t, a).value, e)
  {
    ContractComputes(t.left, e.left, if a.AttachLeft? then Consume(t.left.c) else Fire(t.left.c));
  }

  lemma RightComputes(t: Node, e: Expr, a: Action)
    requires WF(t) && Computes(t, e) && t.Binary? && StepBinary(t, a).Some? && (a.AttachRight? || a.FireRight?)
    ensures Computes(StepBinary(t, a).value, e)
  {
    ContractComputes(t.right, e.right, if a.AttachRight? then Consume(t.right.c) else Fire(t.right.c));
  }

  lemma HereComputes(t: Node, e: Expr, a: Action)
    requires WF(t) && Computes(t, e) && Step(t, Here(a)).Some?
    ensures Computes(Step(t, Here(a)).value, e)
  {
    if a.SetPromise? {
      SetComputes(t, e);
    } else if t.Source? {
      SourceComputes(t, e, a);
    } else if t.Unary? {
      UnaryStepComputes(t, e, a);
    } else if a.AttachLeft? || a.FireLeft? {
      LeftComputes(t, e, a);
    } else {
      RightComputes(t, e, a);
    }
  }

  /** A set promise is final, and only `SetPromise` sets it. */
  lemma StepFinal(t: Node, m: Move)
    requires WF(t) && Step(t, m).Some?
    ensures var c := Step(t, m).value.c; t.c.result.Some? ==> c.result == t.c.result
  {
    ChildContract(t, m);
  }

  /** What a step inside a child makes of it. */
  ghost predicate Follows(k: Node, k': Node, e: Expr) {
    Computes(k', e) && (k.c.result.Some? ==> k'.c.result == k.c.result)
  }

  lemma SourceStepComputes(t: Node, e: Expr, k: Node)
    requires WF(t) && Computes(t, e) && t.Unary? && Follows(t.src, k, e.src)
    ensures Computes(t.(src := k), e)
  {
  }

  lemma InnerStepComputes(t: Node, e: Expr, k: Node)
    requires Computes(t, e) && t.Unary? && t.inner.Just?
    requires Follows(t.inner.node, k, Continuation(t.op, t.src.c.result.value).value)
    ensures Computes(t.(inner := Just(k)), e)
  {
  }

  lemma LeftStepComputes(t: Node, e: Expr, k: Node)
    requires Computes(t, e) && t.Binary? && Follows(t.left, k, e.left)
    ensures Computes(t.(left := k), e)
  {
  }

  lemma RightStepComputes(t: Node, e: Expr, k: Node)
    requires Computes(t, e) && t.Binary? && Follows(t.right, k, e.right)
    ensures Computes(t.(right := k), e)
  {
  }

  lemma {:induction false} StepComputes(t: Node, e: Expr, m: Move)
    requires WF(t) && Computes(t, e) && Step(t, m).Some?
    ensures Follows(t, Step(t, m).value, e)
    decreases m
  {
    StepFinal(t, m);
    match m
    case Here(a) => HereComputes(t, e, a);
    case GoLeft(m') =>
      if t.Unary? {
        StepComputes(t.src, e.src, m');
        SourceStepComputes(t, e, Step(t.src, m').value);
      } else {
        StepComputes(t.left, e.left, m');
        LeftStepComputes(t, e, Step(t.left, m').value);
      }
    case GoRight(m') =>
      StepComputes(t.right, e.right, m');
      RightStepComputes(t, e, Step(t.right, m').value);
    case GoInner(m') =>
      StepComputes(t.inner.node, Continuation(t.op, t.src.c.result.value).value, m');
      InnerStepComputes(t, e, Step(t.inner.node, m').value);
  }

  // ---------------------------------------------------------------------------------------------
  // Results

  /** In every schedule of every tree, also of one whose evaluation never ends, every future computes what it
      should from what its inputs have been set to: it calls its user function exactly if it has to, and gives
      the right value. */
  lemma {:induction false} EveryNodeComputes(e: Expr, moves: seq<SystemMove>)
    requires Schedule(Start(e), moves).Some?
    ensures var t := Schedule(Start(e), moves).value.root; WF(t) && Computes(t, e)
  {
    if moves == [] {
      BuildWF(e);
      BuildComputes(e);
    } else {
      var front, m := moves[..|moves| - 1], moves[|moves| - 1];
      EveryNodeComputes(e, front);
      var t := Schedule(Start(e), front).value.root;
      match m
      case Tree(m') =>
        StepWF(t, m');
        StepComputes(t, e, m');
      case ConsumeRoot =>
        UpdateWF(t, Consume(t.c));
        ContractComputes(t, e, Consume(t.c));
      case FireRoot =>
        UpdateWF(t, Fire(t.c));
        ContractComputes(t, e, Fire(t.c));
    }
  }

  /** `MapOk` and `AndThen` over an error and `OrElse` over a success never call the user function, and if they
      have delivered anything, it is the very value of their input. */
  lemma PassesWithoutCall(op: UnaryOp, rt: Runtime, src: Expr, moves: seq<SystemMove>)
    requires Schedule(Start(Apply(op, rt, src)), moves).Some?
    ensures var t := Schedule(Start(Apply(op, rt, src)), moves).value.root;
      && t.Unary?
      && (t.src.c.result.Some? && t.src.c.result.value.Err? && (op.MapOk? || op.AndThen?)
          ==> t.calls == 0 && t.inner.Nothing? && (t.c.result.Some? ==> t.c.result == t.src.c.result))
      && (t.src.c.result.Some? && !t.src.c.result.value.Err? && op.OrElse?
          ==> t.calls == 0 && t.inner.Nothing? && (t.c.result.Some? ==> t.c.result == t.src.c.result))
  {
    EveryNodeComputes(Apply(op, rt, src), moves);
  }
}
