/**
 Futures and their combinators: a tree of combinators, the values it stands for, and the machine that
 runs it.

 The machine interleaves the steps of all threads: tasks run by any scheduler, `Produce` and
 `Consume` on contracts, and callbacks. A contract is a rendezvous: `fetch_or` on either side, and
 the side that finds the other one already there invokes the callback, on its own thread. Each tree
 is put together by one thread, bottom-up: it consumes the inputs of a combinator only when they have
 been put together, the left one first, and after every callback that it has to invoke on the way.
 */
module FutureTree {
  import opened Common

  /** Values; `Ok` and `Err` are the two cases of `Try`. */
  datatype Value = Plain(n: int) | Pair(first: Value, second: Value) | Ok(value: Value) | Err(error: Value)

  /** `Inline` runs a task inside `Submit`, `Pool` at any later time on any thread. */
  datatype Runtime = Inline | Pool

  /** `FlatMap(g)` is `Map(g) | Flatten()`. User functions that return a future build a tree. */
  datatype UnaryOp =
    | Map(f: Value -> Value)
    | MapOk(f: Value -> Value)
    | FlatMap(g: Value -> Expr)
    | AndThen(g: Value -> Expr)
    | OrElse(g: Value -> Expr)

  datatype BinaryOp = Both | First | FirstOk

  /** `rt` of a combinator is the runtime of its source future: inherited, or set by `Via`. */
  datatype Expr =
    | Ready(value: Value)
    | Spawn(rt: Runtime, user: () -> Value)
    | Apply(op: UnaryOp, rt: Runtime, src: Expr)
    | Join(bop: BinaryOp, left: Expr, right: Expr)

  // ---------------------------------------------------------------------------------------------
  // What a tree stands for

  /** What a callback does with its input: satisfy the promise, or submit a task that calls the user. */
  datatype Reaction = Pass(w: Value) | Call(arg: Value)

  function React(op: UnaryOp, v: Value): Reaction {
    match op
    case Map(_) => Call(v)
    case FlatMap(_) => Call(v)
    case OrElse(_) => if v.Err? then Call(v.error) else Pass(v)
    case _ => if v.Err? then Pass(v) else Call(if v.Ok? then v.value else v)
  }

  /** What the user function gives back: a value, or another future. */
  datatype Outcome = Plainly(w: Value) | Future(e: Expr)

  function UserCall(op: UnaryOp, arg: Value): Outcome {
    match op
    case Map(f) => Plainly(f(arg))
    case MapOk(f) => Plainly(Ok(f(arg)))
    case FlatMap(g) => Future(g(arg))
    case AndThen(g) => Future(g(arg))
    case OrElse(g) => Future(g(arg))
  }

  ghost predicate HasErr(s: set<Value>) { exists v :: v in s && v.Err? }

  ghost function Oks(s: set<Value>): set<Value> { set v | v in s && !v.Err? }

  ghost function Errs(s: set<Value>): set<Value> { set v | v in s && v.Err? }

  ghost function Pairs(s: set<Value>, t: set<Value>): set<Value> { set v, w | v in s && w in t :: Pair(v, w) }

  /** The values a future may give; `late` are those it may give after its consumer has come, that is,
      without having been set when the thread that puts the tree together consumes it. */
  datatype Answers = Answers(all: set<Value>, late: set<Value>)

  const NO_ANSWERS: Answers := Answers({}, {})

  /** The right input can decide only if the left one is not set when it is consumed, or has failed. */
  ghost function Joined(bop: BinaryOp, l: Answers, r: Answers): Answers {
    match bop
    case Both => Answers(Pairs(l.all, r.all), Pairs(l.late, r.all) + Pairs(l.all, r.late))
    case First => if l.late == {} then Answers(l.all, {}) else Answers(l.all + r.all, l.late + r.late)
    case FirstOk => Answers(OkJoined(l, r, l.all, r.all), OkJoined(l, r, l.late, r.late))
  }

  /** `FirstOk`, when its inputs give values in `s` and `t`: a success, or the error that comes last. */
  ghost function OkJoined(l: Answers, r: Answers, s: set<Value>, t: set<Value>): set<Value> {
    Oks(s)
    + (if l.late != {} || HasErr(l.all) then Oks(t) else {})
    + (if HasErr(r.all) then Errs(l.late) else {})
    + (if HasErr(l.all) then Errs(t) else {})
  }

  /** The answers that a tree may give. `n` bounds how deep user functions may nest futures. */
  ghost function Given(e: Expr, n: nat): Answers
    decreases n, 0
  {
    if n == 0 then NO_ANSWERS else
    match e
    case Ready(v) => Answers({v}, {})
    case Spawn(rt, user) => Submitted(rt, Answers({user()}, {}))
    case Apply(op, rt, src) => ReactedAll(op, rt, Given(src, n - 1), n - 1)
    case Join(bop, l, r) => Joined(bop, Given(l, n - 1), Given(r, n - 1))
  }

  ghost function Denote(e: Expr, n: nat): set<Value> { Given(e, n).all }

  /** What a task gives: from a pool its result may always come late. */
  ghost function Submitted(rt: Runtime, a: Answers): Answers {
    Answers(a.all, if rt.Pool? then a.all else a.late)
  }

  ghost function ReactedAll(op: UnaryOp, rt: Runtime, a: Answers, n: nat): Answers
    decreases n, 3
  {
    Answers(set v, w | v in a.all && w in Reacted(op, rt, v, n).all :: w,
            (set v, w | v in a.late && w in Reacted(op, rt, v, n).all :: w)
            + (set v, w | v in a.all && w in Reacted(op, rt, v, n).late :: w))
  }

  ghost function Reacted(op: UnaryOp, rt: Runtime, v: Value, n: nat): Answers
    decreases n, 2
  {
    match React(op, v)
    case Pass(w) => Answers({w}, {})
    case Call(arg) => Submitted(rt, Called(op, arg, n))
  }

  ghost function Called(op: UnaryOp, arg: Value, n: nat): Answers
    decreases n, 1
  {
    match UserCall(op, arg)
    case Plainly(w) => Answers({w}, {})
    case Future(e) => Given(e, n)
  }

  /** Evaluation of the tree comes to an end within depth `n`. */
  ghost predicate Fits(e: Expr, n: nat)
    decreases n, 0
  {
    n > 0 &&
    match e
    case Apply(op, _, src) => Fits(src, n - 1) && ReactionsFit(op, Denote(src, n - 1), n - 1)
    case Join(_, l, r) => Fits(l, n - 1) && Fits(r, n - 1)
    case _ => true
  }

  ghost predicate ReactionsFit(op: UnaryOp, s: set<Value>, n: nat)
    decreases n, 3
  {
    forall v :: v in s ==> ReactionFits(op, v, n)
  }

  ghost predicate ReactionFits(op: UnaryOp, v: Value, n: nat)
    decreases n, 2
  {
    React(op, v).Call? ==> CallFits(op, React(op, v).arg, n)
  }

  ghost predicate CallFits(op: UnaryOp, arg: Value, n: nat)
    decreases n, 1
  {
    UserCall(op, arg).Future? ==> Fits(UserCall(op, arg).e, n)
  }

  // ---------------------------------------------------------------------------------------------
  // Contracts

  /** The two bits of the rendezvous, the stored result, and whether the thread whose `fetch_or` saw
      the other side has still to invoke the callback; `inline` says that it is the consumer's thread.
      `sets` and `fired` count `Set`s and callbacks. */
  datatype Contract = Contract(
    producer: bool, consumer: bool, result: Option<Value>, pending: bool, inline: bool, fired: nat, sets: nat)

  const FRESH: Contract := Contract(false, false, None, false, false, 0, 0)

  function Produce(c: Contract, w: Value): Contract {
    c.(result := Some(w), producer := true, sets := c.sets + 1,
       pending := c.pending || (!c.producer && c.consumer))
  }

  function Consume(c: Contract): Contract {
    c.(consumer := true, pending := c.pending || (!c.consumer && c.producer),
       inline := c.inline || (!c.consumer && c.producer))
  }

  function Fire(c: Contract): Contract {
    c.(pending := false, fired := c.fired + 1)
  }

  /** The consumer's thread is about to invoke the callback. */
  predicate Busy(c: Contract) { c.pending && c.inline }

  // ---------------------------------------------------------------------------------------------
  // Running trees

  /** Progress of a node: `Wait` for its inputs, a task `Queued` with the argument of the user call,
      a future `Handed` to `Flatten` or being waited for (`Inner`), a value `Out` to be set. */
  datatype Phase = Wait | Queued(arg: Value) | Handed | Inner | Out(w: Value) | Done

  /** `mid` is the contract between `Map` and `Flatten`. `inner` is the future the user function
      returned; it stays, since parts of it may go on running. `calls` counts user calls. `inside`
      says that the thread that puts the tree together is in this node's callback, or in a task that
      an inline runtime runs there. */
  datatype Node =
    | Source(user: () -> Value, rt: Runtime, phase: Phase, c: Contract, calls: nat, inside: bool)
    | Unary(op: UnaryOp, rt: Runtime, src: Node, inner: Maybe, mid: Contract, phase: Phase, c: Contract,
            calls: nat, inside: bool)
    | Binary(bop: BinaryOp, left: Node, right: Node, cell: Cell, phase: Phase, c: Contract, inside: bool)

  datatype Maybe = Nothing | Just(node: Node)

  /** The shared state of `Both` (bits 1 and 2), `First` (1 when satisfied) and `FirstOk` (0, 1
      satisfied, 2 report error), and the values stored by `Both`. */
  datatype Cell = Cell(state: nat, v1: Option<Value>, v2: Option<Value>)

  /** A `Ready` future is set when it is made. */
  function Build(e: Expr): Node {
    match e
    case Ready(v) => Source(() => v, Inline, Done, Produce(FRESH, v), 0, false)
    case Spawn(rt, user) => Source(user, rt, Queued(Plain(0)), FRESH, 0, rt.Inline?)
    case Apply(op, rt, src) => Unary(op, rt, Build(src), Nothing, FRESH, Wait, FRESH, 0, false)
    case Join(bop, l, r) => Binary(bop, Build(l), Build(r), Cell(0, None, None), Wait, FRESH, false)
  }

  /** The tree has been put together: all inputs are consumed and no callback of that thread is left. */
  predicate Assembled(t: Node) {
    && !t.inside
    && (t.Unary? ==> && Assembled(t.src) && t.src.c.consumer && !Busy(t.src.c)
                     && (t.op.FlatMap? ==> t.mid.consumer && !Busy(t.mid)))
    && (t.Binary? ==> && Assembled(t.left) && t.left.c.consumer && !Busy(t.left.c)
                      && Assembled(t.right) && t.right.c.consumer && !Busy(t.right.c))
  }

  datatype Action = RunTask | SetPromise | AttachLeft | AttachRight | AttachInner | AttachMid
                  | FireLeft | FireRight | FireInner | SetMid | FireMid

  /** Where in the tree a step happens. The source of a unary node counts as its left child. */
  datatype Move = Here(a: Action) | GoLeft(m: Move) | GoRight(m: Move) | GoInner(m: Move)

  /** The step `m`, or `None` if it is not possible now. */
  function Step(t: Node, m: Move): Option<Node> {
    match m
    case Here(a) =>
      if a.SetPromise? then
        (if t.phase.Out? then Some(t.(c := Produce(t.c, t.phase.w), phase := Done, inside := false)) else None)
      else if t.Source? then StepSource(t, a)
      else if t.Unary? then StepUnary(t, a)
      else StepBinary(t, a)
    case GoLeft(m') =>
      if t.Unary? then (match Step(t.src, m') case Some(k) => Some(t.(src := k)) case None => None)
      else if t.Binary? then (match Step(t.left, m') case Some(k) => Some(t.(left := k)) case None => None)
      else None
    case GoRight(m') =>
      if !t.Binary? then None else
      (match Step(t.right, m') case Some(k) => Some(t.(right := k)) case None => None)
    case GoInner(m') =>
      if !t.Unary? || !t.inner.Just? then None else
      (match Step(t.inner.node, m') case Some(k) => Some(t.(inner := Just(k))) case None => None)
  }

  function Update(t: Node, c: Contract): Node { t.(c := c) }

  function StepSource(t: Node, a: Action): Option<Node>
    requires t.Source?
  {
    if !a.RunTask? || !t.phase.Queued? then None
    else Some(Source(t.user, t.rt, Out(t.user()), t.c, t.calls + 1, t.inside))
  }

  function StepUnary(t: Node, a: Action): Option<Node>
    requires t.Unary?
  {
    match a
    case AttachLeft =>
      if t.src.c.consumer || !Assembled(t.src) then None
      else Some(t.(src := Update(t.src, Consume(t.src.c))))
    case FireLeft =>
      if !t.src.c.pending || !t.src.c.result.Some? then None
      else
        var here := t.src.c.inline;
        var k := Update(t.src, Fire(t.src.c));
        (match React(t.op, t.src.c.result.value)
         case Pass(w) => Some(t.(src := k, phase := Out(w), inside := here))
         case Call(arg) => Some(t.(src := k, phase := Queued(arg), inside := here && t.rt.Inline?)))
    case RunTask =>
      if !t.phase.Queued? then None else
      (match UserCall(t.op, t.phase.arg)
       case Plainly(w) => Some(t.(phase := Out(w), calls := t.calls + 1))
       case Future(e) => Some(t.(phase := if t.op.FlatMap? then Handed else Inner, inner := Just(Build(e)),
                                 calls := t.calls + 1)))
    case AttachMid =>
      if !t.op.FlatMap? || t.mid.consumer || !t.src.c.consumer || Busy(t.src.c) || t.inside then None
      else Some(t.(mid := Consume(t.mid)))
    case SetMid =>
      if !t.phase.Handed? || t.mid.producer || !t.inner.Just? || !Assembled(t.inner.node) then None
      else Some(t.(mid := Produce(t.mid, Plain(0)), inside := false))
    case FireMid =>
      if !t.phase.Handed? || !t.mid.pending then None
      else Some(t.(mid := Fire(t.mid), phase := Inner, inside := t.mid.inline))
    case AttachInner =>
      if !t.phase.Inner? || !t.inner.Just? || t.inner.node.c.consumer || !Assembled(t.inner.node) then None
      else Some(t.(inner := Just(Update(t.inner.node, Consume(t.inner.node.c))),
                   inside := t.inside && t.inner.node.c.producer))
    case FireInner =>
      if !t.inner.Just? || !t.inner.node.c.pending || !t.inner.node.c.result.Some? then None
      else Some(t.(inner := Just(Update(t.inner.node, Fire(t.inner.node.c))),
                   phase := Out(t.inner.node.c.result.value)))
    case _ => None
  }

  function StepBinary(t: Node, a: Action): Option<Node>
    requires t.Binary?
  {
    match a
    case AttachLeft =>
      if t.left.c.consumer || !Assembled(t.left) || !Assembled(t.right) then None
      else Some(t.(left := Update(t.left, Consume(t.left.c))))
    case AttachRight =>
      if t.right.c.consumer || !Assembled(t.right) || !t.left.c.consumer || Busy(t.left.c) || t.inside then None
      else Some(t.(right := Update(t.right, Consume(t.right.c))))
    case FireLeft =>
      if !t.left.c.pending || !t.left.c.result.Some? then None
      else Some(Arrive(t.(left := Update(t.left, Fire(t.left.c))), t.left.c.result.value, 1, 2, t.left.c.inline))
    case FireRight =>
      if !t.right.c.pending || !t.right.c.result.Some? then None
      else Some(Arrive(t.(right := Update(t.right, Fire(t.right.c))), t.right.c.result.value, 2, 1, t.right.c.inline))
    case _ => None
  }

  /** The callback of a binary combinator gets `v`; `bit` is this side's bit and `other` the other's.
      `here` says that the thread that puts the tree together is in the callback. */
  function Arrive(t: Node, v: Value, bit: nat, other: nat, here: bool): Node
    requires t.Binary?
  {
    var was := t.cell.state;
    match t.bop
    case Both =>
      var v1 := if bit == 1 then Some(v) else t.cell.v1;
      var v2 := if bit == 2 then Some(v) else t.cell.v2;
      var now := if was == 0 then bit else if was == other then 3 else was;
      var t' := t.(cell := Cell(now, v1, v2));
      if was == other && v1.Some? && v2.Some? then t'.(phase := Out(Pair(v1.value, v2.value)), inside := here) else t'
    case First =>
      var t' := t.(cell := t.cell.(state := 1));
      if was != 1 then t'.(phase := Out(v), inside := here) else t'
    case FirstOk =>
      if !v.Err? then
        var t' := t.(cell := t.cell.(state := 1));
        if was != 1 then t'.(phase := Out(v), inside := here) else t'
      else
        var t' := t.(cell := t.cell.(state := 2));
        if was == 2 then t'.(phase := Out(v), inside := here) else t'
  }

  /** The whole program: the tree, and a consumer of its future (`Get`, `Detach`). */
  datatype System = System(root: Node, delivered: seq<Value>)

  datatype SystemMove = Tree(m: Move) | ConsumeRoot | FireRoot

  function Start(e: Expr): System { System(Build(e), []) }

  function SystemStep(s: System, m: SystemMove): Option<System> {
    match m
    case Tree(m') => (match Step(s.root, m') case Some(t) => Some(s.(root := t)) case None => None)
    case ConsumeRoot =>
      if s.root.c.consumer || !Assembled(s.root) then None
      else Some(s.(root := Update(s.root, Consume(s.root.c))))
    case FireRoot =>
      if !s.root.c.pending || !s.root.c.result.Some? then None
      else Some(System(Update(s.root, Fire(s.root.c)), s.delivered + [s.root.c.result.value]))
  }

  /** The state after the given schedule, if the schedule is possible. */
  function Schedule(s: System, moves: seq<SystemMove>): Option<System> {
    if moves == [] then Some(s) else
    match Schedule(s, moves[..|moves| - 1])
    case None => None
    case Some(s') => SystemStep(s', moves[|moves| - 1])
  }
}
