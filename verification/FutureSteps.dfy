/**
 What every step of a running tree of futures keeps and narrows: its contracts, the answers it may
 still give, and the work that is left.
 */
module FutureSteps {
  import opened Common
  import opened FutureTree

  // ---------------------------------------------------------------------------------------------
  // Well-formed running trees

  /** A contract: set at most once, fired at most once, and fired or about to be fired exactly when
      both sides have arrived. */
  ghost predicate ContractOk(c: Contract) {
    && c.sets == (if c.producer then 1 else 0)
    && c.result.Some? == c.producer
    && c.fired <= 1
    && (c.pending || c.fired == 1 <==> c.producer && c.consumer)
    && !(c.pending && c.fired == 1)
    && (c.inline ==> c.producer && c.consumer)
  }

  predicate Fired(t: Node) { t.c.fired > 0 }

  ghost predicate WF(t: Node) {
    && ContractOk(t.c)
    && t.phase.Done? == t.c.producer
    && (t.phase.Wait? || t.phase.Done? ==> !t.inside)
    && (t.Source? ==>
          && (t.phase.Queued? || t.phase.Out? || t.phase.Done?)
          && t.calls <= 1 && (t.phase.Queued? ==> t.calls == 0))
    && (t.Unary? ==>
          && WF(t.src) && (t.inner.Just? ==> WF(t.inner.node))
          && UnaryOk(t.op, Fired(t.src), t.inner, t.mid, t.phase, t.calls)
          && MidOk(t.src.c, t.mid, t.phase, t.inside))
    && (t.Binary? ==>
          && WF(t.left) && WF(t.right)
          && (t.phase.Wait? || t.phase.Out? || t.phase.Done?)
          && (t.right.c.consumer ==> t.left.c.consumer && !Busy(t.left.c))
          && CellOk(t.bop, t.left.c, t.right.c, t.cell, t.phase.Wait?))
  }

  ghost predicate UnaryOk(op: UnaryOp, srcFired: bool, inner: Maybe, mid: Contract, phase: Phase, calls: nat) {
    && srcFired == !phase.Wait?
    && calls <= 1
    && ContractOk(mid)
    && (phase.Wait? || phase.Queued? ==> inner.Nothing? && calls == 0 && !mid.producer)
    && (phase.Handed? ==> op.FlatMap? && inner.Just? && calls == 1 && mid.fired == 0
                          && !inner.node.c.consumer)
    && (phase.Inner? ==> inner.Just? && calls == 1 && !Fired(inner.node))
    && (phase.Out? || phase.Done? ==> inner.Just? ==> Fired(inner.node))
    && (op.FlatMap? && (phase.Inner? || phase.Out? || phase.Done?) ==> mid.fired == 1)
    && (!op.FlatMap? || phase.Wait? || phase.Queued? ==> !mid.producer)
  }

  /** `Flatten` is put on top of `Map` when the thread that does so has left the callback of `Map`. */
  ghost predicate MidOk(src: Contract, mid: Contract, phase: Phase, inside: bool) {
    && (mid.consumer ==> src.consumer && !Busy(src))
    && (inside && (phase.Queued? || phase.Handed?) ==> !mid.consumer)
    && (inside && phase.Handed? ==> !mid.producer)
  }

  ghost predicate CellOk(bop: BinaryOp, l: Contract, r: Contract, cell: Cell, waiting: bool) {
    var a, b := l.fired > 0, r.fired > 0;
    match bop
    case Both =>
      && cell.state == (if a then 1 else 0) + (if b then 2 else 0)
      && (a ==> cell.v1 == l.result) && (b ==> cell.v2 == r.result)
      && waiting == !(a && b)
    case First =>
      && cell.state == (if a || b then 1 else 0)
      && waiting == !(a || b)
    case FirstOk =>
      && (!a && !b ==> waiting && cell.state == 0)
      && (a && b ==> !waiting)
      && (a != b && waiting ==> cell.state == 2)
      && (a != b && !waiting ==> cell.state == 1)
      && (a && waiting ==> l.result.Some? && l.result.value.Err?)
      && (b && waiting ==> r.result.Some? && r.result.value.Err?)
  }

  lemma {:induction false} BuildWF(e: Expr)
    ensures WF(Build(e)) && Build(e).c.consumer == false
  {
    match e
    case Apply(_, _, src) => BuildWF(src);
    case Join(_, l, r) => BuildWF(l); BuildWF(r);
    case _ =>
  }

  /** A step inside a child never attaches, fires or overwrites the child's own contract. */
  lemma ChildContract(t: Node, m: Move)
    requires WF(t) && Step(t, m).Some?
    ensures var c := Step(t, m).value.c;
      && c.consumer == t.c.consumer && c.fired == t.c.fired
      && (t.c.producer ==> c == t.c)
      && Busy(c) == Busy(t.c) && c.inline == t.c.inline
  {
    if m.Here? {
      if !m.a.SetPromise? { OwnContract(t, m.a); }
    }
  }

  /** Only `SetPromise` touches a node's own contract. */
  lemma OwnContract(t: Node, a: Action)
    requires !a.SetPromise? && Step(t, Here(a)).Some?
    ensures Step(t, Here(a)).value.c == t.c
  {
  }

  lemma SetWF(t: Node)
    requires WF(t) && Step(t, Here(SetPromise)).Some?
    ensures WF(Step(t, Here(SetPromise)).value)
  {
  }

  lemma UpdateWF(t: Node, c: Contract)
    requires WF(t) && ContractOk(c) && c.producer == t.c.producer
    ensures WF(Update(t, c))
  {
  }

  lemma FireSourceWF(t: Node)
    requires WF(t) && t.Unary? && StepUnary(t, FireLeft).Some?
    ensures WF(StepUnary(t, FireLeft).value)
  {
    UpdateWF(t.src, Fire(t.src.c));
  }

  lemma RunTaskWF(t: Node)
    requires WF(t) && t.Unary? && StepUnary(t, RunTask).Some?
    ensures WF(StepUnary(t, RunTask).value)
  {
    if UserCall(t.op, t.phase.arg).Future? { BuildWF(UserCall(t.op, t.phase.arg).e); }
  }

  lemma AttachInnerWF(t: Node)
    requires WF(t) && t.Unary? && StepUnary(t, AttachInner).Some?
    ensures WF(StepUnary(t, AttachInner).value)
  {
    UpdateWF(t.inner.node, Consume(t.inner.node.c));
  }

  lemma FireInnerWF(t: Node)
    requires WF(t) && t.Unary? && StepUnary(t, FireInner).Some?
    ensures WF(StepUnary(t, FireInner).value)
  {
    UpdateWF(t.inner.node, Fire(t.inner.node.c));
  }

  lemma StepUnaryWF(t: Node, a: Action)
    requires WF(t) && t.Unary? && StepUnary(t, a).Some?
    ensures WF(StepUnary(t, a).value)
  {
    match a
    case AttachLeft => UpdateWF(t.src, Consume(t.src.c));
    case FireLeft => FireSourceWF(t);
    case RunTask => RunTaskWF(t);
    case AttachInner => AttachInnerWF(t);
    case FireInner => FireInnerWF(t);
    case _ =>
  }

  lemma StepBinaryWF(t: Node, a: Action)
    requires WF(t) && t.Binary? && StepBinary(t, a).Some?
    ensures WF(StepBinary(t, a).value)
  {
    if a.AttachLeft? {
      UpdateWF(t.left, Consume(t.left.c));
    } else if a.AttachRight? {
      UpdateWF(t.right, Consume(t.right.c));
    } else if a.FireLeft? {
      FireLeftWF(t);
    } else {
      FireRightWF(t);
    }
  }

  /** The callback of the left input keeps the shared word in agreement with the arrivals. */
  lemma LeftArrives(t: Node, v: Value, here: bool)
    requires t.Binary? && CellOk(t.bop, t.left.c, t.right.c, t.cell, t.phase.Wait?)
    requires t.left.c.fired == 0 && t.left.c.result == Some(v) && (Fired(t.right) ==> t.right.c.result.Some?)
    ensures var t' := Arrive(t, v, 1, 2, here);
      && CellOk(t.bop, Fire(t.left.c), t.right.c, t'.cell, t'.phase.Wait?)
      && (if t'.phase.Wait? || !t.phase.Wait? then t' == t.(cell := t'.cell)
          else t' == t.(cell := t'.cell, phase := Out(t'.phase.w), inside := here))
  {
  }

  lemma RightArrives(t: Node, v: Value, here: bool)
    requires t.Binary? && CellOk(t.bop, t.left.c, t.right.c, t.cell, t.phase.Wait?)
    requires t.right.c.fired == 0 && t.right.c.result == Some(v) && (Fired(t.left) ==> t.left.c.result.Some?)
    ensures var t' := Arrive(t, v, 2, 1, here);
      && CellOk(t.bop, t.left.c, Fire(t.right.c), t'.cell, t'.phase.Wait?)
      && (if t'.phase.Wait? || !t.phase.Wait? then t' == t.(cell := t'.cell)
          else t' == t.(cell := t'.cell, phase := Out(t'.phase.w), inside := here))
  {
  }

  lemma FireLeftWF(t: Node)
    requires WF(t) && t.Binary? && StepBinary(t, FireLeft).Some?
    ensures WF(StepBinary(t, FireLeft).value)
  {
    UpdateWF(t.left, Fire(t.left.c));
    LeftArrives(t, t.left.c.result.value, t.left.c.inline);
  }

  lemma FireRightWF(t: Node)
    requires WF(t) && t.Binary? && StepBinary(t, FireRight).Some?
    ensures WF(StepBinary(t, FireRight).value)
  {
    UpdateWF(t.right, Fire(t.right.c));
    RightArrives(t, t.right.c.result.value, t.right.c.inline);
  }

  lemma {:induction false} StepWF(t: Node, m: Move)
    requires WF(t) && Step(t, m).Some?
    ensures WF(Step(t, m).value)
    decreases m
  {
    match m
    case Here(a) =>
      if a.SetPromise? { SetWF(t); }
      else if t.Unary? { StepUnaryWF(t, a); }
      else if t.Binary? { StepBinaryWF(t, a); }
    case GoLeft(m') =>
      if t.Unary? {
        StepWF(t.src, m');
        ChildContract(t.src, m');
      } else {
        StepWF(t.left, m');
        ChildContract(t.left, m');
      }
    case GoRight(m') =>
      StepWF(t.right, m');
      ChildContract(t.right, m');
    case GoInner(m') =>
      StepWF(t.inner.node, m');
      ChildContract(t.inner.node, m');
  }

  // ---------------------------------------------------------------------------------------------
  // What a running tree may still give

  ghost predicate Within(a: Answers, b: Answers) { a.all <= b.all && a.late <= b.late }

  /** What a combinator still expects of an input: once it has consumed it, whatever comes, and has not
      been taken in inline, comes late. */
  ghost function Seen(c: Contract, a: Answers): Answers {
    if c.consumer && !Busy(c) && c.fired == 0 then Answers(a.all, a.all) else a
  }

  ghost function Now(t: Node, n: nat): Answers
    decreases t
  {
    if n == 0 then NO_ANSWERS
    else if t.phase.Out? then Answers({t.phase.w}, if t.inside then {} else {t.phase.w})
    else if t.phase.Done? then Answers(if t.c.result.Some? then {t.c.result.value} else {}, {})
    else if t.Source? then Answers({t.user()}, if t.inside then {} else {t.user()})
    else if t.Unary? then
      (if t.phase.Wait? then ReactedAll(t.op, t.rt, Seen(t.src.c, Now(t.src, n - 1)), n - 1)
       else if t.phase.Queued? then Ending(t.inside, Called(t.op, t.phase.arg, n - 1))
       else if t.inner.Just? then Ending(Prompt(t.mid, t.phase, t.inside), Now(t.inner.node, n - 1))
       else NO_ANSWERS)
    else Meeting(t, Seen(t.left.c, Now(t.left, n - 1)), Seen(t.right.c, Now(t.right, n - 1)))
  }

  /** What the thread that puts the tree together sees through itself need not come late. */
  ghost function Ending(prompt: bool, a: Answers): Answers { Answers(a.all, if prompt then a.late else a.all) }

  /** That thread is, or will be, the one that consumes the inner future. */
  ghost predicate Prompt(mid: Contract, phase: Phase, inside: bool) {
    inside || (phase.Handed? && mid.producer && (!mid.consumer || mid.inline))
  }

  ghost function Meeting(t: Node, l: Answers, r: Answers): Answers
    requires t.Binary?
  {
    if t.bop.FirstOk? && Fired(t.right) then l
    else if t.bop.FirstOk? && Fired(t.left) then r
    else Joined(t.bop, l, r)
  }

  ghost function Possible(t: Node, n: nat): set<Value> { Now(t, n).all }

  lemma {:induction false} BuildNow(e: Expr, n: nat)
    ensures Now(Build(e), n) == Given(e, n)
    decreases e
  {
    if n > 0 {
      if e.Apply? {
        BuildNow(e.src, n - 1);
      } else if e.Join? {
        BuildNow(e.left, n - 1);
        BuildNow(e.right, n - 1);
        BuildJoin(e, n);
      }
    }
  }

  lemma BuildJoin(e: Expr, n: nat)
    requires e.Join? && n > 0
    requires Now(Build(e.left), n - 1) == Given(e.left, n - 1) && Now(Build(e.right), n - 1) == Given(e.right, n - 1)
    ensures Now(Build(e), n) == Given(e, n)
  {
    BuildWF(e.left);
    BuildWF(e.right);
    assert Seen(Build(e.left).c, Given(e.left, n - 1)) == Given(e.left, n - 1);
    assert Seen(Build(e.right).c, Given(e.right, n - 1)) == Given(e.right, n - 1);
    assert !Fired(Build(e.left)) && !Fired(Build(e.right));
  }

  ghost predicate NodeFits(t: Node, n: nat)
    decreases t
  {
    && n > 0
    && (t.Unary? ==>
          && NodeFits(t.src, n - 1)
          && (t.inner.Just? ==> NodeFits(t.inner.node, n - 1))
          && (t.phase.Wait? ==> ReactionsFit(t.op, Possible(t.src, n - 1), n - 1))
          && (t.phase.Queued? ==> CallFits(t.op, t.phase.arg, n - 1)))
    && (t.Binary? ==> NodeFits(t.left, n - 1) && NodeFits(t.right, n - 1))
  }

  lemma {:induction false} BuildFits(e: Expr, n: nat)
    requires Fits(e, n)
    ensures NodeFits(Build(e), n)
    decreases e
  {
    match e
    case Apply(_, _, src) => BuildFits(src, n - 1); BuildNow(src, n - 1);
    case Join(_, l, r) => BuildFits(l, n - 1); BuildFits(r, n - 1);
    case _ =>
  }

  // ---------------------------------------------------------------------------------------------
  // Late answers

  lemma JoinedLate(bop: BinaryOp, l: Answers, r: Answers)
    requires l.late <= l.all && r.late <= r.all
    ensures Joined(bop, l, r).late <= Joined(bop, l, r).all
  {
  }

  lemma {:induction false} GivenLate(e: Expr, n: nat)
    ensures Given(e, n).late <= Given(e, n).all
    decreases n, 0
  {
    if n > 0 {
      if e.Apply? {
        GivenLate(e.src, n - 1);
        ReactedAllLate(e.op, e.rt, Given(e.src, n - 1), n - 1);
      } else if e.Join? {
        GivenLate(e.left, n - 1);
        GivenLate(e.right, n - 1);
        JoinedLate(e.bop, Given(e.left, n - 1), Given(e.right, n - 1));
      }
    }
  }

  lemma {:induction false} ReactedAllLate(op: UnaryOp, rt: Runtime, a: Answers, n: nat)
    requires a.late <= a.all
    ensures ReactedAll(op, rt, a, n).late <= ReactedAll(op, rt, a, n).all
    decreases n, 3
  {
    forall v | v in a.all ensures Reacted(op, rt, v, n).late <= Reacted(op, rt, v, n).all {
      if React(op, v).Call? { CalledLate(op, React(op, v).arg, n); }
    }
  }

  lemma {:induction false} CalledLate(op: UnaryOp, arg: Value, n: nat)
    ensures Called(op, arg, n).late <= Called(op, arg, n).all
    decreases n, 1
  {
    if UserCall(op, arg).Future? { GivenLate(UserCall(op, arg).e, n); }
  }

  lemma {:induction false} NowLate(t: Node, n: nat)
    ensures Now(t, n).late <= Now(t, n).all
    decreases t
  {
    if n > 0 && !t.phase.Out? && !t.phase.Done? {
      if t.Unary? {
        NowLate(t.src, n - 1);
        if t.phase.Wait? { ReactedAllLate(t.op, t.rt, Seen(t.src.c, Now(t.src, n - 1)), n - 1); }
        else if t.phase.Queued? { CalledLate(t.op, t.phase.arg, n - 1); }
        else if t.inner.Just? { NowLate(t.inner.node, n - 1); }
      } else if t.Binary? {
        NowLate(t.left, n - 1);
        NowLate(t.right, n - 1);
        JoinedLate(t.bop, Seen(t.left.c, Now(t.left, n - 1)), Seen(t.right.c, Now(t.right, n - 1)));
      }
    }
  }

  /** If whatever the source gives comes late, so does whatever the combinator gives. */
  lemma ReactedAllFull(op: UnaryOp, rt: Runtime, s: set<Value>, n: nat)
    ensures var a := ReactedAll(op, rt, Answers(s, s), n); a.late == a.all
  {
    ReactedAllLate(op, rt, Answers(s, s), n);
  }

  lemma JoinedFull(bop: BinaryOp, l: set<Value>, r: set<Value>)
    ensures var a := Joined(bop, Answers(l, l), Answers(r, r)); a.late == a.all
  {
  }

  /** A tree that has been put together without being set gives all that it may still give late. */
  lemma AssembledIsLate(t: Node, n: nat)
    requires WF(t) && Assembled(t) && !t.phase.Done?
    ensures Now(t, n).late == Now(t, n).all
  {
    if n > 0 && !t.phase.Out? {
      if t.Unary? && t.phase.Wait? {
        ReactedAllFull(t.op, t.rt, Now(t.src, n - 1).all, n - 1);
      } else if t.Binary? {
        MeetingFull(t, n);
      }
    }
  }

  lemma MeetingFull(t: Node, n: nat)
    requires WF(t) && t.Binary? && Assembled(t) && t.phase.Wait? && n > 0
    ensures Now(t, n).late == Now(t, n).all
  {
    var l, r := Now(t.left, n - 1), Now(t.right, n - 1);
    if Fired(t.left) || Fired(t.right) {
      assert Fired(t.left) ==> l.late == {} && Seen(t.right.c, r) == Answers(r.all, r.all);
      assert Fired(t.right) ==> r.late == {} && Seen(t.left.c, l) == Answers(l.all, l.all);
    } else {
      JoinedFull(t.bop, l.all, r.all);
    }
  }

  // ---------------------------------------------------------------------------------------------
  // There is always an answer

  lemma {:induction false} NowSome(t: Node, n: nat)
    requires WF(t) && NodeFits(t, n)
    ensures Possible(t, n) != {}
    decreases n, 0, t
  {
    if t.phase.Out? {
      assert t.phase.w in Possible(t, n);
    } else if t.phase.Done? {
      assert t.c.result.value in Possible(t, n);
    } else if t.Source? {
      assert t.user() in Possible(t, n);
    } else if t.Unary? {
      if t.phase.Wait? {
        NowSome(t.src, n - 1);
        var v :| v in Possible(t.src, n - 1);
        assert ReactionFits(t.op, v, n - 1);
        ReactedSome(t.op, t.rt, v, n - 1);
        var w :| w in Reacted(t.op, t.rt, v, n - 1).all;
        assert w in Possible(t, n);
      } else if t.phase.Queued? {
        CalledSome(t.op, t.phase.arg, n - 1);
      } else {
        NowSome(t.inner.node, n - 1);
      }
    } else {
      NowSome(t.left, n - 1);
      NowSome(t.right, n - 1);
      MeetingSome(t, Seen(t.left.c, Now(t.left, n - 1)), Seen(t.right.c, Now(t.right, n - 1)));
    }
  }

  lemma MeetingSome(t: Node, l: Answers, r: Answers)
    requires t.Binary? && l.all != {} && r.all != {}
    ensures Meeting(t, l, r).all != {}
  {
    var v :| v in l.all;
    var w :| w in r.all;
    assert Pair(v, w) in Pairs(l.all, r.all);
    if t.bop.FirstOk? {
      var s := OkJoined(l, r, l.all, r.all);
      if !v.Err? { assert v in s; } else { assert w in s; }
    } else if t.bop.First? {
      assert v in Joined(t.bop, l, r).all;
    }
  }

  lemma {:induction false} ReactedSome(op: UnaryOp, rt: Runtime, v: Value, n: nat)
    requires ReactionFits(op, v, n)
    ensures Reacted(op, rt, v, n).all != {}
    decreases n, 3
  {
    if React(op, v).Call? { CalledSome(op, React(op, v).arg, n); }
    else { assert React(op, v).w in Reacted(op, rt, v, n).all; }
  }

  lemma {:induction false} CalledSome(op: UnaryOp, arg: Value, n: nat)
    requires CallFits(op, arg, n)
    ensures Called(op, arg, n).all != {}
    decreases n, 2
  {
    if UserCall(op, arg).Future? { GivenSome(UserCall(op, arg).e, n); }
    else { assert UserCall(op, arg).w in Called(op, arg, n).all; }
  }

  lemma {:induction false} GivenSome(e: Expr, n: nat)
    requires Fits(e, n)
    ensures Denote(e, n) != {}
    decreases n, 1
  {
    BuildWF(e);
    BuildFits(e, n);
    BuildNow(e, n);
    NowSome(Build(e), n);
  }

  // ---------------------------------------------------------------------------------------------
  // How many steps a running tree may still take

  function Left(c: Contract): nat {
    (if c.consumer then 0 else 1) + (if c.fired > 0 then 0 else 1)
  }

  ghost function Work(t: Node, n: nat): nat
    decreases n, 0
  {
    if n == 0 then 0
    else if t.Source? then Left(t.c) + PhaseWork(t, n)
    else if t.Unary? then
      Left(t.c) + PhaseWork(t, n) + Work(t.src, n - 1)
      + (if t.inner.Just? then Work(t.inner.node, n - 1) else 0)
      + (if t.op.FlatMap? && !t.mid.consumer then 1 else 0)
    else Left(t.c) + PhaseWork(t, n) + Work(t.left, n - 1) + Work(t.right, n - 1)
  }

  /** Steps of the node itself up to and including its `Set`. */
  ghost function PhaseWork(t: Node, n: nat): nat
    requires n > 0
    decreases n - 1, 5
  {
    match t.phase
    case Wait => if t.Unary? then SupWork(t.op, Possible(t.src, n - 1), n - 1) else 1
    case Queued(arg) => if t.Unary? then 1 + CallWork(t.op, arg, n - 1) else 2
    case Handed => if t.Unary? && t.mid.producer then 2 else 3
    case Inner => 1
    case Out(_) => 1
    case Done => 0
  }

  ghost function CallWork(op: UnaryOp, arg: Value, n: nat): nat
    decreases n, 1
  {
    match UserCall(op, arg)
    case Plainly(_) => 1
    case Future(e) => 3 + Work(Build(e), n)
  }

  ghost function ReactWork(op: UnaryOp, v: Value, n: nat): nat
    decreases n, 2
  {
    match React(op, v)
    case Pass(_) => 1
    case Call(arg) => 1 + CallWork(op, arg, n)
  }

  /** The most that any of the values in `s` may cause. */
  ghost function SupWork(op: UnaryOp, s: set<Value>, n: nat): nat
    decreases n, 3, s
  {
    if s == {} then 0 else
    var v :| v in s;
    var rest := SupWork(op, s - {v}, n);
    if ReactWork(op, v, n) > rest then ReactWork(op, v, n) else rest
  }

  lemma {:induction false} SupBound(op: UnaryOp, s: set<Value>, n: nat, v: Value)
    requires v in s
    ensures ReactWork(op, v, n) <= SupWork(op, s, n)
  {
    var x :| x in s && SupWork(op, s, n) == (if ReactWork(op, x, n) > SupWork(op, s - {x}, n) then ReactWork(op, x, n)
                                             else SupWork(op, s - {x}, n));
    if v != x { SupBound(op, s - {x}, n, v); }
  }

  lemma {:induction false} SupMonotone(op: UnaryOp, s: set<Value>, t: set<Value>, n: nat)
    requires s <= t
    ensures SupWork(op, s, n) <= SupWork(op, t, n)
  {
    if s != {} {
      var x :| x in s && SupWork(op, s, n) == (if ReactWork(op, x, n) > SupWork(op, s - {x}, n) then ReactWork(op, x, n)
                                               else SupWork(op, s - {x}, n));
      SupBound(op, t, n, x);
      SupMonotone(op, s - {x}, t, n);
    }
  }

  // ---------------------------------------------------------------------------------------------
  // Every step narrows the possibilities and uses up work

  ghost predicate Progress(t: Node, t': Node, n: nat) {
    Within(Now(t', n), Now(t, n)) && NodeFits(t', n) && Work(t', n) < Work(t, n)
  }

  /** Attaching to or firing a contract changes nothing else. */
  lemma ContractProgress(t: Node, c: Contract, n: nat)
    requires NodeFits(t, n) && c.result == t.c.result
    ensures Now(Update(t, c), n) == Now(t, n) && NodeFits(Update(t, c), n)
    ensures Work(Update(t, c), n) + Left(t.c) == Work(t, n) + Left(c)
  {
    assert PhaseWork(Update(t, c), n) == PhaseWork(t, n);
  }

  lemma JoinedMonotone(bop: BinaryOp, l: Answers, r: Answers, l': Answers, r': Answers)
    requires Within(l', l) && Within(r', r)
    ensures Within(Joined(bop, l', r'), Joined(bop, l, r))
  {
  }

  lemma MeetingMonotone(t: Node, t': Node, l: Answers, r: Answers, l': Answers, r': Answers)
    requires t.Binary? && t'.Binary? && t'.bop == t.bop
    requires Fired(t'.left) == Fired(t.left) && Fired(t'.right) == Fired(t.right)
    requires Within(l', l) && Within(r', r)
    ensures Within(Meeting(t', l', r'), Meeting(t, l, r))
  {
    JoinedMonotone(t.bop, l, r, l', r');
  }

  /** An input as its combinator sees it. */
  ghost function SeenAs(k: Node, n: nat): Answers { Seen(k.c, Now(k, n)) }

  /** What a step inside an input, or consuming it, does to it. */
  ghost predicate Advanced(k: Node, k': Node, n: nat) {
    && Possible(k', n) <= Possible(k, n) && NodeFits(k', n) && Work(k', n) < Work(k, n)
    && Within(SeenAs(k', n), SeenAs(k, n)) && Fired(k') == Fired(k)
  }

  lemma StepAdvances(k: Node, m: Move, n: nat)
    requires WF(k) && Step(k, m).Some? && Progress(k, Step(k, m).value, n)
    ensures Advanced(k, Step(k, m).value, n)
  {
    ChildContract(k, m);
  }

  lemma ConsumeAdvances(k: Node, n: nat)
    requires WF(k) && Assembled(k) && NodeFits(k, n) && !k.c.consumer
    ensures Advanced(k, Update(k, Consume(k.c)), n)
  {
    ContractProgress(k, Consume(k.c), n);
    if !k.c.producer { AssembledIsLate(k, n); }
  }

  lemma SetProgress(t: Node, n: nat)
    requires NodeFits(t, n) && t.phase.Out?
    ensures Progress(t, t.(c := Produce(t.c, t.phase.w), phase := Done, inside := false), n)
  {
  }

  lemma SrcProgress(t: Node, k: Node, n: nat)
    requires t.Unary? && NodeFits(t, n) && Advanced(t.src, k, n - 1)
    ensures Progress(t, t.(src := k), n)
  {
    SupMonotone(t.op, Possible(k, n - 1), Possible(t.src, n - 1), n - 1);
  }

  lemma InnerProgress(t: Node, k: Node, n: nat)
    requires t.Unary? && t.inner.Just? && NodeFits(t, n) && Progress(t.inner.node, k, n - 1)
    ensures Progress(t, t.(inner := Just(k)), n)
  {
    assert PhaseWork(t.(inner := Just(k)), n) == PhaseWork(t, n);
  }

  lemma LeftProgress(t: Node, k: Node, n: nat)
    requires t.Binary? && NodeFits(t, n) && Advanced(t.left, k, n - 1)
    ensures Progress(t, t.(left := k), n)
  {
    var t' := t.(left := k);
    MeetingMonotone(t, t', SeenAs(t.left, n - 1), SeenAs(t.right, n - 1), SeenAs(k, n - 1), SeenAs(t.right, n - 1));
    assert PhaseWork(t', n) == PhaseWork(t, n);
  }

  lemma RightProgress(t: Node, k: Node, n: nat)
    requires t.Binary? && NodeFits(t, n) && Advanced(t.right, k, n - 1)
    ensures Progress(t, t.(right := k), n)
  {
    var t' := t.(right := k);
    MeetingMonotone(t, t', SeenAs(t.left, n - 1), SeenAs(t.right, n - 1), SeenAs(t.left, n - 1), SeenAs(k, n - 1));
    assert PhaseWork(t', n) == PhaseWork(t, n);
  }

  lemma FireSourceWithin(t: Node, n: nat)
    requires WF(t) && t.Unary? && NodeFits(t, n) && StepUnary(t, FireLeft).Some?
    ensures Within(Now(StepUnary(t, FireLeft).value, n), Now(t, n))
  {
    var v := t.src.c.result.value;
    var seen := SeenAs(t.src, n - 1);
    assert t.phase.Wait? && Now(t.src, n - 1) == Answers({v}, {});
    assert seen == Answers({v}, if t.src.c.inline then {} else {v});
    var a := Reacted(t.op, t.rt, v, n - 1);
    assert a.all <= ReactedAll(t.op, t.rt, seen, n - 1).all;
    assert a.late <= ReactedAll(t.op, t.rt, seen, n - 1).late;
    if !t.src.c.inline { assert a.all <= ReactedAll(t.op, t.rt, seen, n - 1).late; }
  }

  lemma FireSourceProgress(t: Node, n: nat)
    requires WF(t) && t.Unary? && NodeFits(t, n) && StepUnary(t, FireLeft).Some?
    ensures Progress(t, StepUnary(t, FireLeft).value, n)
  {
    var v := t.src.c.result.value;
    var t' := StepUnary(t, FireLeft).value;
    ContractProgress(t.src, Fire(t.src.c), n - 1);
    assert Possible(t.src, n - 1) == {v};
    assert t.phase.Wait?;
    SupBound(t.op, Possible(t.src, n - 1), n - 1, v);
    assert ReactionFits(t.op, v, n - 1);
    assert PhaseWork(t', n) == ReactWork(t.op, v, n - 1);
    FireSourceWithin(t, n);
  }

  lemma RunTaskWithin(t: Node, n: nat)
    requires WF(t) && t.Unary? && NodeFits(t, n) && StepUnary(t, RunTask).Some?
    ensures Within(Now(StepUnary(t, RunTask).value, n), Now(t, n))
  {
    if UserCall(t.op, t.phase.arg).Future? {
      var e := UserCall(t.op, t.phase.arg).e;
      BuildNow(e, n - 1);
      GivenLate(e, n - 1);
    }
  }

  lemma RunTaskProgress(t: Node, n: nat)
    requires WF(t) && t.Unary? && NodeFits(t, n) && StepUnary(t, RunTask).Some?
    ensures Progress(t, StepUnary(t, RunTask).value, n)
  {
    var t' := StepUnary(t, RunTask).value;
    assert PhaseWork(t, n) == 1 + CallWork(t.op, t.phase.arg, n - 1);
    assert t.inner.Nothing?;
    RunTaskWithin(t, n);
    if UserCall(t.op, t.phase.arg).Future? {
      var e := UserCall(t.op, t.phase.arg).e;
      BuildFits(e, n - 1);
      assert CallWork(t.op, t.phase.arg, n - 1) == 3 + Work(Build(e), n - 1);
      assert PhaseWork(t', n) <= 3;
    } else {
      assert PhaseWork(t', n) == 1;
    }
  }

  lemma AttachInnerProgress(t: Node, n: nat)
    requires WF(t) && t.Unary? && NodeFits(t, n) && StepUnary(t, AttachInner).Some?
    ensures Progress(t, StepUnary(t, AttachInner).value, n)
  {
    var k := t.inner.node;
    ContractProgress(k, Consume(k.c), n - 1);
    NowLate(k, n - 1);
    if !k.c.producer { AssembledIsLate(k, n - 1); }
    assert PhaseWork(StepUnary(t, AttachInner).value, n) == PhaseWork(t, n);
  }

  lemma FireInnerProgress(t: Node, n: nat)
    requires WF(t) && t.Unary? && NodeFits(t, n) && StepUnary(t, FireInner).Some?
    ensures Progress(t, StepUnary(t, FireInner).value, n)
  {
    ContractProgress(t.inner.node, Fire(t.inner.node.c), n - 1);
    assert t.phase.Inner?;
    assert Possible(t.inner.node, n - 1) == {t.inner.node.c.result.value};
  }

  lemma MidProgress(t: Node, a: Action, n: nat)
    requires WF(t) && t.Unary? && NodeFits(t, n) && StepUnary(t, a).Some?
    requires a.AttachMid? || a.SetMid? || a.FireMid?
    ensures Progress(t, StepUnary(t, a).value, n)
  {
    if t.inner.Just? { NowLate(t.inner.node, n - 1); }
  }

  lemma StepUnaryProgress(t: Node, a: Action, n: nat)
    requires WF(t) && t.Unary? && NodeFits(t, n) && StepUnary(t, a).Some?
    ensures Progress(t, StepUnary(t, a).value, n)
  {
    match a
    case AttachLeft =>
      ConsumeAdvances(t.src, n - 1);
      SrcProgress(t, Update(t.src, Consume(t.src.c)), n);
    case FireLeft => FireSourceProgress(t, n);
    case RunTask => RunTaskProgress(t, n);
    case AttachInner => AttachInnerProgress(t, n);
    case FireInner => FireInnerProgress(t, n);
    case _ => MidProgress(t, a, n);
  }

  /** An input whose callback is about to be invoked. */
  lemma SeenPending(k: Node, n: nat)
    requires WF(k) && n > 0 && k.c.pending
    ensures var v := k.c.result.value;
      k.c.result.Some? && SeenAs(k, n) == Answers({v}, if k.c.inline then {} else {v})
  {
  }

  lemma SeenFired(k: Node, n: nat)
    requires WF(k) && n > 0 && Fired(k)
    ensures k.c.result.Some? && SeenAs(k, n) == Answers({k.c.result.value}, {})
  {
  }

  /** When the right callback is invoked, the left input has been consumed, and decides late if at all. */
  lemma SeenConsumed(k: Node, n: nat)
    requires WF(k) && NodeFits(k, n) && k.c.consumer && !Busy(k.c) && !Fired(k)
    ensures SeenAs(k, n) == Answers(Possible(k, n), Possible(k, n)) && Possible(k, n) != {}
  {
    NowSome(k, n);
  }

  lemma FireLeftWithin(t: Node, n: nat)
    requires WF(t) && t.Binary? && NodeFits(t, n) && StepBinary(t, FireLeft).Some? && t.phase.Wait?
    ensures Within(Now(StepBinary(t, FireLeft).value, n), Now(t, n))
  {
    var t' := StepBinary(t, FireLeft).value;
    var l, r := SeenAs(t.left, n - 1), SeenAs(t.right, n - 1);
    SeenPending(t.left, n - 1);
    if Fired(t.right) { SeenFired(t.right, n - 1); }
    if t'.phase.Wait? {
      SeenFired(t'.left, n - 1);
      if t.bop.Both? { JoinedMonotone(Both, l, r, SeenAs(t'.left, n - 1), r); }
      else { ErrorFirst(l, r, t.left.c.result.value); }
    } else if t.bop.Both? {
      assert t'.phase.w in Pairs(l.all, r.all);
      if !t.left.c.inline { assert t'.phase.w in Pairs(l.late, r.all); }
    }
  }

  /** An error from the left input leaves the decision to the right one. */
  lemma ErrorFirst(l: Answers, r: Answers, v: Value)
    requires v in l.all && v.Err?
    ensures Within(r, Joined(FirstOk, l, r))
  {
    assert HasErr(l.all);
    forall w | w in r.all ensures w in Oks(r.all) + Errs(r.all) {}
    forall w | w in r.late ensures w in Oks(r.late) + Errs(r.late) {}
  }

  /** An error from the right input, while the left one is to come, leaves the decision to that one. */
  lemma ErrorSecond(l: Answers, r: Answers, w: Value)
    requires w in r.all && w.Err? && l.all == l.late
    ensures Within(l, Joined(FirstOk, l, r))
  {
    assert HasErr(r.all);
    forall v | v in l.all ensures v in Oks(l.all) + Errs(l.late) {}
  }

  lemma FireRightWithin(t: Node, n: nat)
    requires WF(t) && t.Binary? && NodeFits(t, n) && StepBinary(t, FireRight).Some? && t.phase.Wait?
    ensures Within(Now(StepBinary(t, FireRight).value, n), Now(t, n))
  {
    var t' := StepBinary(t, FireRight).value;
    var l, r := SeenAs(t.left, n - 1), SeenAs(t.right, n - 1);
    SeenPending(t.right, n - 1);
    if Fired(t.left) { SeenFired(t.left, n - 1); } else { SeenConsumed(t.left, n - 1); }
    if t'.phase.Wait? {
      SeenFired(t'.right, n - 1);
      if t.bop.Both? { JoinedMonotone(Both, l, r, l, SeenAs(t'.right, n - 1)); }
      else { ErrorSecond(l, r, t.right.c.result.value); }
    } else if t.bop.Both? {
      assert t'.phase.w in Pairs(l.all, r.all);
      if !t.right.c.inline { assert t'.phase.w in Pairs(l.all, r.late); }
    }
  }

  lemma FireLeftProgress(t: Node, n: nat)
    requires WF(t) && t.Binary? && NodeFits(t, n) && StepBinary(t, FireLeft).Some?
    ensures Progress(t, StepBinary(t, FireLeft).value, n)
  {
    ContractProgress(t.left, Fire(t.left.c), n - 1);
    if t.phase.Wait? { FireLeftWithin(t, n); }
  }

  lemma FireRightProgress(t: Node, n: nat)
    requires WF(t) && t.Binary? && NodeFits(t, n) && StepBinary(t, FireRight).Some?
    ensures Progress(t, StepBinary(t, FireRight).value, n)
  {
    ContractProgress(t.right, Fire(t.right.c), n - 1);
    if t.phase.Wait? { FireRightWithin(t, n); }
  }

  lemma StepBinaryProgress(t: Node, a: Action, n: nat)
    requires WF(t) && t.Binary? && NodeFits(t, n) && StepBinary(t, a).Some?
    ensures Progress(t, StepBinary(t, a).value, n)
  {
    if a.AttachLeft? {
      ConsumeAdvances(t.left, n - 1);
      LeftProgress(t, Update(t.left, Consume(t.left.c)), n);
    } else if a.AttachRight? {
      ConsumeAdvances(t.right, n - 1);
      RightProgress(t, Update(t.right, Consume(t.right.c)), n);
    } else if a.FireLeft? {
      FireLeftProgress(t, n);
    } else {
      FireRightProgress(t, n);
    }
  }

  /** Every step narrows what the tree may still give and uses up work. */
  lemma {:induction false} StepProgress(t: Node, m: Move, n: nat)
    requires WF(t) && NodeFits(t, n) && Step(t, m).Some?
    ensures Progress(t, Step(t, m).value, n)
    decreases m
  {
    match m
    case Here(a) =>
      if a.SetPromise? { SetProgress(t, n); }
      else if t.Unary? { StepUnaryProgress(t, a, n); }
      else if t.Binary? { StepBinaryProgress(t, a, n); }
    case GoLeft(m') =>
      if t.Unary? {
        StepProgress(t.src, m', n - 1);
        StepAdvances(t.src, m', n - 1);
        SrcProgress(t, Step(t.src, m').value, n);
      } else {
        StepProgress(t.left, m', n - 1);
        StepAdvances(t.left, m', n - 1);
        LeftProgress(t, Step(t.left, m').value, n);
      }
    case GoRight(m') =>
      StepProgress(t.right, m', n - 1);
      StepAdvances(t.right, m', n - 1);
      RightProgress(t, Step(t.right, m').value, n);
    case GoInner(m') =>
      StepProgress(t.inner.node, m', n - 1);
      InnerProgress(t, Step(t.inner.node, m').value, n);
  }
}
