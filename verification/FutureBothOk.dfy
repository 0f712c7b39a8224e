/**
 `BothOk`: two callbacks on one promise. It sets its promise exactly once if and only if not both
 inputs are errors.
 */
module FutureBothOk {
  import opened Common
  import opened FutureTree

  /** Where a callback is: not invoked yet, before its `fetch_or(Fail)`, before the `Set` of the
      pair, or finished. */
  datatype Pc = Start | Failing | Setting | Finished

  /** `bits` are `First`, `Second` and `Fail`; `sets` are the values set, in order. */
  datatype State = State(
    in1: Value, in2: Value, pc1: Pc, pc2: Pc, v1: Option<Value>, v2: Option<Value>,
    first: bool, second: bool, fail: bool, sets: seq<Value>)

  function Init(in1: Value, in2: Value): State {
    State(in1, in2, Start, Start, None, None, false, false, false, [])
  }

  /** The pair set by the callback that comes second. */
  function PairOf(s: State): Value
    requires s.v1.Some? && s.v2.Some?
  {
    Ok(Pair(s.v1.value, s.v2.value))
  }

  function Content(v: Value): Value { if v.Ok? then v.value else v }

  function Step1(s: State): State {
    match s.pc1
    case Start =>
      if s.in1.Err? then s.(sets := s.sets + [s.in1], pc1 := Failing)
      else
        var stored := s.(v1 := Some(Content(s.in1)), first := true);
        if !s.first && s.second && !s.fail then stored.(pc1 := Setting) else stored.(pc1 := Finished)
    case Failing => s.(fail := true, pc1 := Finished)
    case Setting => if s.v1.Some? && s.v2.Some? then s.(sets := s.sets + [PairOf(s)], pc1 := Finished) else s
    case Finished => s
  }

  function Step2(s: State): State {
    match s.pc2
    case Start =>
      if s.in2.Err? then s.(sets := s.sets + [s.in2], pc2 := Failing)
      else
        var stored := s.(v2 := Some(Content(s.in2)), second := true);
        if s.first && !s.second && !s.fail then stored.(pc2 := Setting) else stored.(pc2 := Finished)
    case Failing => s.(fail := true, pc2 := Finished)
    case Setting => if s.v1.Some? && s.v2.Some? then s.(sets := s.sets + [PairOf(s)], pc2 := Finished) else s
    case Finished => s
  }

  /** The state after a schedule; `true` schedules the first callback. */
  function Run(s: State, schedule: seq<bool>): State
    decreases |schedule|
  {
    if schedule == [] then s
    else Run(if schedule[0] then Step1(s) else Step2(s), schedule[1..])
  }

  ghost predicate Complete(s: State) { s.pc1.Finished? && s.pc2.Finished? }

  /** What has been set, from where the two callbacks are. */
  ghost predicate Inv(s: State) {
    var a, b := s.in1, s.in2;
    && (s.first <==> !a.Err? && !s.pc1.Start?) && (s.second <==> !b.Err? && !s.pc2.Start?)
    && (s.first ==> s.v1 == Some(Content(a))) && (s.second ==> s.v2 == Some(Content(b)))
    && (s.fail ==> a.Err? || b.Err?)
    && (s.pc1.Failing? ==> a.Err?) && (s.pc2.Failing? ==> b.Err?)
    && (s.pc1.Setting? || s.pc2.Setting? ==> s.first && s.second && !(s.pc1.Setting? && s.pc2.Setting?))
    && s.sets == SetsOf(s)
  }

  ghost function SetsOf(s: State): seq<Value> {
    var failed1, failed2 := s.in1.Err? && !s.pc1.Start?, s.in2.Err? && !s.pc2.Start?;
    if failed1 && failed2 then s.sets
    else if failed1 then [s.in1]
    else if failed2 then [s.in2]
    else if s.first && s.second && s.pc1.Finished? && s.pc2.Finished? then [Ok(Pair(Content(s.in1), Content(s.in2)))]
    else []
  }

  ghost predicate TwoErrors(s: State) {
    s.in1.Err? && s.in2.Err? && !s.pc1.Start? && !s.pc2.Start? ==> |s.sets| == 2
  }

  lemma {:induction false} InvAlong(s: State, schedule: seq<bool>)
    requires Inv(s) && TwoErrors(s)
    ensures var s' := Run(s, schedule); Inv(s') && TwoErrors(s') && s'.in1 == s.in1 && s'.in2 == s.in2
    decreases |schedule|
  {
    if schedule != [] {
      InvAlong(if schedule[0] then Step1(s) else Step2(s), schedule[1..]);
    }
  }

  /** The promise is set at most once in every schedule if and only if some input is a success. */
  lemma SetAtMostOnceIff(in1: Value, in2: Value)
    ensures (forall schedule :: |Run(Init(in1, in2), schedule).sets| <= 1) <==> !(in1.Err? && in2.Err?)
  {
    forall schedule ensures !(in1.Err? && in2.Err?) ==> |Run(Init(in1, in2), schedule).sets| <= 1 {
      InvAlong(Init(in1, in2), schedule);
    }
    if in1.Err? && in2.Err? { SecondSet(in1, in2); }
  }

  /** The schedule that fails: both callbacks reach `Set`. */
  lemma SecondSet(in1: Value, in2: Value)
    requires in1.Err? && in2.Err?
    ensures Run(Init(in1, in2), [true, false]).sets == [in1, in2]
  {
    var s := Init(in1, in2);
    assert [true, false][1..] == [false] && [false][1..] == [];
    assert Run(s, [true, false]) == Run(Step1(s), [false]) == Run(Step2(Step1(s)), []);
  }

  /** With at least one success, a complete schedule sets exactly the right answer: the pair, or the
      error of the one that failed. */
  lemma CompleteSetsAnswer(in1: Value, in2: Value, schedule: seq<bool>)
    requires !(in1.Err? && in2.Err?) && Complete(Run(Init(in1, in2), schedule))
    ensures Run(Init(in1, in2), schedule).sets
         == [if in1.Err? then in1 else if in2.Err? then in2 else Ok(Pair(Content(in1), Content(in2)))]
  {
    InvAlong(Init(in1, in2), schedule);
  }
}
