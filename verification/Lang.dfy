/** The structured, lane-local source language and its meaning for one program
    instance run on its own.

    Expressions are arbitrary functions of one lane's variables, so every claim
    about programs quantifies over all expressions as well.  Uniform tests read
    an environment that no statement changes. */
module Lang {

  type Store = map<string, int>

  type Uniforms = map<string, int>

  datatype CaseLabel = Value(v: int) | Default

  datatype Case = Case(caseLabel: CaseLabel, checkMask: bool, body: Stmt)

  datatype Stmt =
    | Assign(x: string, rhs: Store -> int)
    | Seq(first: Stmt, second: Stmt)
    | UniformIf(utest: Uniforms -> bool, thn: Stmt, els: Stmt)
      // anyCheck: branch around a side whose mask is all off
    | VaryingIf(test: Store -> bool, thn: Stmt, els: Stmt, anyCheck: bool)
    | Loop(test: Store -> bool, stepVar: string, stepRhs: Store -> int, body: Stmt)
      // coherent: emit the "are all lanes done?" check
    | Break(coherent: bool)
    | Continue(coherent: bool)
    | Return(value: Store -> int, coherent: bool)
    | VaryingSwitch(expr: Store -> int, cases: seq<Case>)
      // uniformFlow: no break under varying control flow inside
    | UniformSwitch(selector: Uniforms -> int, uniformFlow: bool, cases: seq<Case>)

  // ---------- one lane on its own ----------

  datatype Outcome =
    | Normal
    | Broke
    | Continued
    | Returned(result: int)
    | Unfinished  // some loop wanted more iterations than the bound allows

  datatype LaneState = LaneState(store: Store, outcome: Outcome)

  /** The position a C switch on v jumps to: the label with v's value, or else
      the default label, or else past the end. */
  function Target(cases: seq<Case>, v: int): (i: nat)
    ensures i <= |cases|
  {
    var own := FindLabel(cases, Value(v), 0);
    if own < |cases| then own else FindLabel(cases, Default, 0)
  }

  function FindLabel(cases: seq<Case>, l: CaseLabel, from: nat): (i: nat)
    requires from <= |cases|
    ensures from <= i <= |cases|
    ensures i < |cases| ==> cases[i].caseLabel == l
    ensures forall j :: from <= j < i ==> cases[j].caseLabel != l
    decreases |cases| - from
  {
    if from == |cases| || cases[from].caseLabel == l then from else FindLabel(cases, l, from + 1)
  }

  /** Runs s in one lane; k bounds the iterations of each loop execution. */
  ghost function RunLane(s: Stmt, u: Uniforms, st: Store, k: nat): LaneState
    decreases s, 1, 0
  {
    match s
    case Assign(x, rhs) => LaneState(st[x := rhs(st)], Normal)
    case Seq(first, second) =>
      var r := RunLane(first, u, st, k);
      if r.outcome.Normal? then RunLane(second, u, r.store, k) else r
    case UniformIf(utest, thn, els) => RunLane(if utest(u) then thn else els, u, st, k)
    case VaryingIf(test, thn, els, _) => RunLane(if test(st) then thn else els, u, st, k)
    case Loop(_, _, _, _) => RunLaneLoop(s, u, st, k, k)
    case Break(_) => LaneState(st, Broke)
    case Continue(_) => LaneState(st, Continued)
    case Return(value, _) => LaneState(st, Returned(value(st)))
    case VaryingSwitch(expr, cases) => RunLaneCases(s, u, st, Target(cases, expr(st)), k)
    case UniformSwitch(selector, _, cases) => RunLaneCases(s, u, st, Target(cases, selector(u)), k)
  }

  ghost function RunLaneLoop(s: Stmt, u: Uniforms, st: Store, n: nat, k: nat): LaneState
    requires s.Loop?
    decreases s, 0, n
  {
    if !s.test(st) then LaneState(st, Normal)
    else if n == 0 then LaneState(st, Unfinished)
    else
      var r := RunLane(s.body, u, st, k);
      match r.outcome
      case Broke => LaneState(r.store, Normal)
      case Returned(_) => r
      case Unfinished => r
      case _ => RunLaneLoop(s, u, r.store[s.stepVar := s.stepRhs(r.store)], n - 1, k)
  }

  /** Runs the bodies from label i on, falling through until a break or a return. */
  ghost function RunLaneCases(s: Stmt, u: Uniforms, st: Store, i: nat, k: nat): LaneState
    requires s.VaryingSwitch? || s.UniformSwitch?
    requires i <= |s.cases|
    decreases s, 0, |s.cases| - i
  {
    if i == |s.cases| then LaneState(st, Normal)
    else
      var r := RunLane(s.cases[i].body, u, st, k);
      match r.outcome
      case Broke => LaneState(r.store, Normal)
      case Normal => RunLaneCases(s, u, r.store, i + 1, k)
      case _ => r
  }

  // ---------- programs the compiler accepts ----------

  /** Where a statement stands: may it break or continue, does a break here leave
      its construct by a plain jump, and is every break here required to. */
  datatype Place = Place(canBreak: bool, canContinue: bool, jumps: bool, onlyJumps: bool)

  const FunctionBody := Place(false, false, false, false)

  predicate DistinctLabels(cases: seq<Case>)
  {
    forall i, j :: 0 <= i < j < |cases| ==> cases[i].caseLabel != cases[j].caseLabel
  }

  /** break and continue sit inside a construct that takes them; case labels are
      distinct; a switch emitted with uniform flow has no break under a varying test. */
  predicate WellFormed(s: Stmt, p: Place)
  {
    match s
    case Assign(_, _) => true
    case Seq(first, second) => WellFormed(first, p) && WellFormed(second, p)
    case UniformIf(_, thn, els) => WellFormed(thn, p) && WellFormed(els, p)
    case VaryingIf(_, thn, els, _) => WellFormed(thn, p.(jumps := false)) && WellFormed(els, p.(jumps := false))
    case Loop(_, _, _, body) => WellFormed(body, Place(true, true, true, false))
    case Break(_) => p.canBreak && (p.onlyJumps ==> p.jumps)
    case Continue(_) => p.canContinue
    case Return(_, _) => true
    case VaryingSwitch(_, cases) =>
      DistinctLabels(cases) &&
      forall i :: 0 <= i < |cases| ==> WellFormed(cases[i].body, Place(true, false, false, false))
    case UniformSwitch(_, uniformFlow, cases) =>
      DistinctLabels(cases) &&
      forall i :: 0 <= i < |cases| ==> WellFormed(cases[i].body, Place(true, false, true, uniformFlow))
  }
}
