/**
 Every schedule of a tree of futures terminates, sets each promise once, calls no user function
 twice, and delivers a value that the tree denotes.
 */
module FutureSafety {
  import opened Common
  import opened FutureSteps
  import opened FutureTree

  // ---------------------------------------------------------------------------------------------
  // No schedule gets stuck

  ghost predicate Stuck(t: Node) { forall m :: Step(t, m).None? }

  predicate Finished(t: Node) { t.phase.Done? && Assembled(t) }

  /** A contract both of whose sides have arrived and that is not about to fire has fired. */
  lemma Idle(t: Node)
    requires WF(t) && t.phase.Done? && t.c.consumer && !t.c.pending
    ensures Fired(t)
  {
  }

  lemma StuckInner(t: Node)
    requires WF(t) && t.Unary? && t.inner.Just? && Finished(t.inner.node) && t.src.c.consumer && !t.src.c.pending
    requires forall a :: Step(t, Here(a)).None?
    ensures !t.phase.Handed? && !t.phase.Inner?
  {
    assert Step(t, Here(AttachMid)).None? && Step(t, Here(SetMid)).None? && Step(t, Here(FireMid)).None?;
    assert Step(t, Here(AttachInner)).None? && Step(t, Here(FireInner)).None?;
  }

  lemma StuckUnary(t: Node)
    requires WF(t) && t.Unary? && Finished(t.src) && (t.inner.Just? ==> Finished(t.inner.node))
    requires forall a :: Step(t, Here(a)).None?
    ensures Finished(t)
  {
    assert Step(t, Here(SetPromise)).None? && Step(t, Here(RunTask)).None?;
    assert Step(t, Here(AttachLeft)).None? && Step(t, Here(FireLeft)).None?;
    Idle(t.src);
    if t.inner.Just? { StuckInner(t); }
  }

  lemma StuckBinary(t: Node)
    requires WF(t) && t.Binary? && Finished(t.left) && Finished(t.right)
    requires forall a :: Step(t, Here(a)).None?
    ensures Finished(t)
  {
    assert Step(t, Here(SetPromise)).None?;
    assert Step(t, Here(AttachLeft)).None? && Step(t, Here(FireLeft)).None?;
    Idle(t.left);
    assert Step(t, Here(AttachRight)).None? && Step(t, Here(FireRight)).None?;
    Idle(t.right);
  }

  lemma {:induction false} StuckIsFinished(t: Node)
    requires WF(t) && Stuck(t)
    ensures Finished(t)
    decreases t
  {
    assert forall a :: Step(t, Here(a)).None?;
    if t.Source? {
      assert Step(t, Here(SetPromise)).None? && Step(t, Here(RunTask)).None?;
    } else if t.Unary? {
      StuckChildren(t);
      StuckIsFinished(t.src);
      if t.inner.Just? { StuckIsFinished(t.inner.node); }
      StuckUnary(t);
    } else {
      StuckChildren(t);
      StuckIsFinished(t.left);
      StuckIsFinished(t.right);
      StuckBinary(t);
    }
  }

  lemma StuckChildren(t: Node)
    requires Stuck(t)
    ensures t.Unary? ==> Stuck(t.src) && (t.inner.Just? ==> Stuck(t.inner.node))
    ensures t.Binary? ==> Stuck(t.left) && Stuck(t.right)
  {
    forall m ensures t.Unary? ==> Step(t.src, m).None? && (t.inner.Just? ==> Step(t.inner.node, m).None?) {
      assert Step(t, GoLeft(m)).None? && Step(t, GoInner(m)).None?;
    }
    forall m ensures t.Binary? ==> Step(t.left, m).None? && Step(t.right, m).None? {
      assert Step(t, GoLeft(m)).None? && Step(t, GoRight(m)).None?;
    }
  }

  // ---------------------------------------------------------------------------------------------
  // Whole schedules

  ghost predicate SystemOk(s: System, n: nat) {
    && WF(s.root) && NodeFits(s.root, n)
    && |s.delivered| == s.root.c.fired
    && (s.delivered != [] ==> Some(s.delivered[0]) == s.root.c.result)
  }

  lemma SystemStepOk(s: System, m: SystemMove, n: nat)
    requires SystemOk(s, n) && SystemStep(s, m).Some?
    ensures var s' := SystemStep(s, m).value;
      SystemOk(s', n) && Possible(s'.root, n) <= Possible(s.root, n) && Work(s'.root, n) < Work(s.root, n)
  {
    match m
    case Tree(m') =>
      StepWF(s.root, m');
      ChildContract(s.root, m');
      StepProgress(s.root, m', n);
    case ConsumeRoot =>
      UpdateWF(s.root, Consume(s.root.c));
      ContractProgress(s.root, Consume(s.root.c), n);
    case FireRoot =>
      UpdateWF(s.root, Fire(s.root.c));
      ContractProgress(s.root, Fire(s.root.c), n);
  }

  lemma {:induction false} ScheduleOk(e: Expr, moves: seq<SystemMove>, n: nat)
    requires Fits(e, n) && Schedule(Start(e), moves).Some?
    ensures var s := Schedule(Start(e), moves).value;
      SystemOk(s, n) && Possible(s.root, n) <= Denote(e, n) && Work(s.root, n) + |moves| <= Work(Build(e), n)
  {
    if moves == [] {
      BuildWF(e);
      BuildFits(e, n);
      BuildNow(e, n);
    } else {
      var front := moves[..|moves| - 1];
      ScheduleOk(e, front, n);
      SystemStepOk(Schedule(Start(e), front).value, moves[|moves| - 1], n);
    }
  }

  /** Every schedule of a tree whose evaluation comes to an end is at most `Work` steps long. */
  lemma SchedulesTerminate(e: Expr, moves: seq<SystemMove>, n: nat)
    requires Fits(e, n) && Schedule(Start(e), moves).Some?
    ensures |moves| <= Work(Build(e), n)
  {
    ScheduleOk(e, moves, n);
  }

  /** Every node in the tree. */
  ghost predicate AllNodes(t: Node, p: Node -> bool)
    decreases t
  {
    && p(t)
    && (t.Unary? ==> AllNodes(t.src, p) && (t.inner.Just? ==> AllNodes(t.inner.node, p)))
    && (t.Binary? ==> AllNodes(t.left, p) && AllNodes(t.right, p))
  }

  /** The promise has been set at most once, its callback called at most once, and the user function
      of this node called at most once. */
  predicate OnceOnly(t: Node) {
    && t.c.sets <= 1 && t.c.fired <= 1
    && (t.Binary? || t.calls <= 1)
    && (t.Unary? ==> t.mid.sets <= 1 && t.mid.fired <= 1)
  }

  /** The promise has been set, exactly once. */
  predicate SetOnce(t: Node) { t.c.sets == 1 }

  lemma {:induction false} WFOnceOnly(t: Node)
    requires WF(t)
    ensures AllNodes(t, OnceOnly)
    decreases t
  {
    if t.Unary? {
      WFOnceOnly(t.src);
      if t.inner.Just? { WFOnceOnly(t.inner.node); }
    } else if t.Binary? {
      WFOnceOnly(t.left);
      WFOnceOnly(t.right);
    }
  }

  lemma {:induction false} StuckSetOnce(t: Node)
    requires WF(t) && Stuck(t)
    ensures AllNodes(t, SetOnce)
    decreases t
  {
    StuckIsFinished(t);
    StuckChildren(t);
    if t.Unary? {
      StuckSetOnce(t.src);
      if t.inner.Just? { StuckSetOnce(t.inner.node); }
    } else if t.Binary? {
      StuckSetOnce(t.left);
      StuckSetOnce(t.right);
    }
  }

  /** No schedule gets stuck: every complete one has set every promise in the tree exactly once, those
      of the futures that user functions returned included, and has delivered exactly one value, one
      that the tree denotes. */
  lemma CompleteScheduleDelivers(e: Expr, moves: seq<SystemMove>, n: nat)
    requires Fits(e, n) && Schedule(Start(e), moves).Some?
    requires forall m :: SystemStep(Schedule(Start(e), moves).value, m).None?
    ensures var s := Schedule(Start(e), moves).value;
      AllNodes(s.root, SetOnce) && |s.delivered| == 1 && s.delivered[0] in Denote(e, n)
  {
    ScheduleOk(e, moves, n);
    var s := Schedule(Start(e), moves).value;
    assert Stuck(s.root) by { forall m ensures Step(s.root, m).None? { assert SystemStep(s, Tree(m)).None?; } }
    StuckIsFinished(s.root);
    StuckSetOnce(s.root);
    assert SystemStep(s, ConsumeRoot).None? && SystemStep(s, FireRoot).None?;
  }

  /** At no time of any schedule has a promise been set twice, a callback or a user function been
      called twice, or a value been delivered twice. */
  lemma EverythingOnce(e: Expr, moves: seq<SystemMove>, n: nat)
    requires Fits(e, n) && Schedule(Start(e), moves).Some?
    ensures var s := Schedule(Start(e), moves).value;
      AllNodes(s.root, OnceOnly) && |s.delivered| <= 1
  {
    ScheduleOk(e, moves, n);
    WFOnceOnly(Schedule(Start(e), moves).value.root);
  }

  // ---------------------------------------------------------------------------------------------
  // What the denotation says

  /** No race: neither the tree nor any tree a user function returns contains `First` or `FirstOk`. */
  ghost predicate RaceFree(e: Expr, n: nat)
    decreases n, 0
  {
    n > 0 &&
    match e
    case Apply(op, _, src) => RaceFree(src, n - 1) && AnswersRaceFree(op, Denote(src, n - 1), n - 1)
    case Join(bop, l, r) => bop.Both? && RaceFree(l, n - 1) && RaceFree(r, n - 1)
    case _ => true
  }

  ghost predicate AnswersRaceFree(op: UnaryOp, s: set<Value>, n: nat)
    decreases n, 3
  {
    forall v :: v in s ==> AnswerRaceFree(op, v, n)
  }

  ghost predicate AnswerRaceFree(op: UnaryOp, v: Value, n: nat)
    decreases n, 2
  {
    React(op, v).Call? && UserCall(op, React(op, v).arg).Future? ==> RaceFree(UserCall(op, React(op, v).arg).e, n)
  }

  lemma AnswerFits(op: UnaryOp, v: Value, s: set<Value>, n: nat)
    requires v in s && ReactionsFit(op, s, n) && AnswersRaceFree(op, s, n)
    requires React(op, v).Call? && UserCall(op, React(op, v).arg).Future?
    ensures Fits(UserCall(op, React(op, v).arg).e, n) && RaceFree(UserCall(op, React(op, v).arg).e, n)
  {
    assert ReactionFits(op, v, n) && AnswerRaceFree(op, v, n);
    assert CallFits(op, React(op, v).arg, n);
  }

  /** What is in a success. */
  function Payload(v: Value): Value { if v.Ok? then v.value else v }

  /** Pure evaluation, left to right, of a tree without races. */
  function Eval(e: Expr, n: nat): Option<Value>
    decreases n, 1
  {
    if n == 0 then None else
    match e
    case Ready(v) => Some(v)
    case Spawn(_, user) => Some(user())
    case Apply(op, _, src) => (match Eval(src, n - 1) case None => None case Some(v) => Applied(op, v, n - 1))
    case Join(bop, l, r) =>
      if bop.Both? && Eval(l, n - 1).Some? && Eval(r, n - 1).Some?
      then Some(Pair(Eval(l, n - 1).value, Eval(r, n - 1).value)) else None
  }

  /** What a combinator makes of the value of its input: `MapOk` and `AndThen` let errors pass, `OrElse` lets
      successes pass, and none of them calls the user function then. */
  function Applied(op: UnaryOp, v: Value, n: nat): Option<Value>
    decreases n, 2
  {
    match op
    case Map(f) => Some(f(v))
    case MapOk(f) => Some(if v.Err? then v else Ok(f(Payload(v))))
    case FlatMap(g) => Eval(g(v), n)
    case AndThen(g) => if v.Err? then Some(v) else Eval(g(Payload(v)), n)
    case OrElse(g) => if v.Err? then Eval(g(v.error), n) else Some(v)
  }

  lemma ReactedToOne(op: UnaryOp, rt: Runtime, a: Answers, v: Value, n: nat)
    requires a.all == {v}
    ensures ReactedAll(op, rt, a, n).all == Reacted(op, rt, v, n).all
  {
    assert v in a.all;
  }

  /** Without races a tree denotes one value, that of its pure evaluation. */
  lemma {:induction false} RaceFreeIsEval(e: Expr, n: nat)
    requires Fits(e, n) && RaceFree(e, n)
    ensures Eval(e, n).Some? && Denote(e, n) == {Eval(e, n).value}
    decreases n, 1
  {
    match e
    case Ready(_) =>
    case Spawn(_, _) =>
    case Apply(op, rt, src) =>
      RaceFreeIsEval(src, n - 1);
      AppliedIsEval(op, rt, Eval(src, n - 1).value, n - 1);
      ReactedToOne(op, rt, Given(src, n - 1), Eval(src, n - 1).value, n - 1);
    case Join(bop, l, r) =>
      RaceFreeIsEval(l, n - 1);
      RaceFreeIsEval(r, n - 1);
      assert Pair(Eval(l, n - 1).value, Eval(r, n - 1).value) in Denote(e, n);
  }

  lemma {:induction false} AppliedIsEval(op: UnaryOp, rt: Runtime, v: Value, n: nat)
    requires ReactionsFit(op, {v}, n) && AnswersRaceFree(op, {v}, n)
    ensures Applied(op, v, n).Some? && Reacted(op, rt, v, n).all == {Applied(op, v, n).value}
    decreases n, 2
  {
    if React(op, v).Call? && UserCall(op, React(op, v).arg).Future? {
      AnswerFits(op, v, {v}, n);
      RaceFreeIsEval(UserCall(op, React(op, v).arg).e, n);
    }
  }

  /** Every complete schedule of a race-free tree delivers the value of its pure evaluation. */
  lemma SchedulesAgreeWithEval(e: Expr, moves: seq<SystemMove>, n: nat)
    requires Fits(e, n) && RaceFree(e, n) && Schedule(Start(e), moves).Some?
    requires forall m :: SystemStep(Schedule(Start(e), moves).value, m).None?
    ensures Eval(e, n).Some? && Schedule(Start(e), moves).value.delivered == [Eval(e, n).value]
  {
    CompleteScheduleDelivers(e, moves, n);
    RaceFreeIsEval(e, n);
  }

  // ---------------------------------------------------------------------------------------------
  // FirstOk fails only together

  ghost predicate Failed(t: Node) { t.c.result.Some? && t.c.result.value.Err? }

  /** A `FirstOk` node that is about to give, or has given, an error. */
  ghost predicate GivesError(t: Node) {
    (t.phase.Out? && t.phase.w.Err?) || (t.phase.Done? && Failed(t))
  }

  ghost predicate FailsTogether(t: Node) {
    t.Binary? && t.bop.FirstOk? && (GivesError(t) ==> Failed(t.left) && Failed(t.right))
  }

  lemma FailsTogetherStep(t: Node, m: Move)
    requires WF(t) && FailsTogether(t) && Step(t, m).Some?
    ensures FailsTogether(Step(t, m).value)
  {
    match m
    case GoLeft(m') => ChildContract(t.left, m');
    case GoRight(m') => ChildContract(t.right, m');
    case Here(a) => FailsTogetherHere(t, a);
    case _ =>
  }

  lemma FailsTogetherHere(t: Node, a: Action)
    requires WF(t) && FailsTogether(t) && Step(t, Here(a)).Some?
    ensures FailsTogether(Step(t, Here(a)).value)
  {
    if a.FireLeft? { LeftFailsTogether(t); }
    else if a.FireRight? { RightFailsTogether(t); }
  }

  lemma LeftFailsTogether(t: Node)
    requires WF(t) && FailsTogether(t) && StepBinary(t, FireLeft).Some?
    ensures FailsTogether(StepBinary(t, FireLeft).value)
  {
  }

  lemma RightFailsTogether(t: Node)
    requires WF(t) && FailsTogether(t) && StepBinary(t, FireRight).Some?
    ensures FailsTogether(StepBinary(t, FireRight).value)
  {
  }

  lemma {:induction false} FailsTogetherAlong(l: Expr, r: Expr, moves: seq<SystemMove>, n: nat)
    requires Fits(Join(FirstOk, l, r), n) && Schedule(Start(Join(FirstOk, l, r)), moves).Some?
    ensures FailsTogether(Schedule(Start(Join(FirstOk, l, r)), moves).value.root)
  {
    if moves != [] {
      var front := moves[..|moves| - 1];
      FailsTogetherAlong(l, r, front, n);
      ScheduleOk(Join(FirstOk, l, r), front, n);
      var s := Schedule(Start(Join(FirstOk, l, r)), front).value;
      var m := moves[|moves| - 1];
      if m.Tree? { FailsTogetherStep(s.root, m.m); }
    }
  }

  lemma FirstOkGives(l: Expr, r: Expr, n: nat)
    requires n > 0
    ensures Denote(Join(FirstOk, l, r), n) <= Denote(l, n - 1) + Denote(r, n - 1)
  {
    GivenLate(l, n - 1);
  }

  /** A complete schedule of `FirstOk` delivers an error only if both inputs failed in that very
      schedule; otherwise it delivers a success that one of the inputs can give. */
  lemma FirstOkFailsOnlyIfBothFail(l: Expr, r: Expr, moves: seq<SystemMove>, n: nat)
    requires Fits(Join(FirstOk, l, r), n) && Schedule(Start(Join(FirstOk, l, r)), moves).Some?
    requires forall m :: SystemStep(Schedule(Start(Join(FirstOk, l, r)), moves).value, m).None?
    ensures var s := Schedule(Start(Join(FirstOk, l, r)), moves).value;
      && |s.delivered| == 1 && s.root.Binary?
      && s.delivered[0] in Denote(l, n - 1) + Denote(r, n - 1)
      && (s.delivered[0].Err? ==> Failed(s.root.left) && Failed(s.root.right))
  {
    var e := Join(FirstOk, l, r);
    FailsTogetherAlong(l, r, moves, n);
    FirstOkGives(l, r, n);
    Final(e, moves, n);
  }

  /** What a complete schedule has delivered is what the root's promise was set to. */
  lemma Final(e: Expr, moves: seq<SystemMove>, n: nat)
    requires Fits(e, n) && Schedule(Start(e), moves).Some?
    requires forall m :: SystemStep(Schedule(Start(e), moves).value, m).None?
    ensures var s := Schedule(Start(e), moves).value;
      && |s.delivered| == 1 && s.delivered[0] in Denote(e, n)
      && s.root.phase.Done? && s.root.c.result == Some(s.delivered[0])
  {
    CompleteScheduleDelivers(e, moves, n);
    ScheduleOk(e, moves, n);
  }
}
