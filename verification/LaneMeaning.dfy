/** The plain meaning of a tree for one lane on its own: C, with no masks.  And the
    code for which the masked run is to agree with it. */
module LaneMeaning {
  import opened MaskContext
  import opened AllOffSafety
  import opened AllOffRun
  import opened Predication

  datatype How = Broke | Continued | Returned

  /** `u` holds the uniform variables, `m` the lane's own; a value has one number for each
      part. */
  datatype LaneResult =
    | LaneDone(u: Memory, m: Memory, value: seq<int>)
    | Left(u: Memory, m: Memory, how: How)
    | LaneFault
    | Endless

  datatype LaneResults = LaneAll(u: Memory, m: Memory, values: seq<seq<int>>) | LaneStopped(r: LaneResult)

  // ---------- variables ----------

  function Number(value: seq<int>, p: nat): int
  {
    if p < |value| then value[p] else 0
  }

  function First(values: seq<seq<int>>, i: nat): int
  {
    if i < |values| then Number(values[i], 0) else 0
  }

  function ConstAt(vals: seq<int>, l: Lane): int
  {
    if |vals| == 1 then vals[0] else Number(vals, l)
  }

  function LaneRead(u: Memory, m: Memory, v: Variable): seq<int>
  {
    seq(|v.parts|, p requires 0 <= p < |v.parts| =>
        if v.parts[p] then Held(u, Loc(v.name, p)) else Held(m, Loc(v.name, p)))
  }

  /** The numbers that an assignment of the whole variable stores. */
  function Stored(v: Variable, value: seq<int>, uniform: bool): Memory
  {
    map p: nat | p < |v.parts| && v.parts[p] == uniform :: Loc(v.name, p) := Number(value, p)
  }

  function StoredPart(v: Variable, p: nat, c: int, uniform: bool): Memory
  {
    if p < |v.parts| && v.parts[p] == uniform then map[Loc(v.name, p) := c] else map[]
  }

  /** What an assignment to the lvalue changes in the uniform or in the lane's own memory. */
  function Change(lvalue: Node, value: seq<int>, uniform: bool, l: Lane): Memory
    requires LValue(lvalue)
  {
    match lvalue.kind
    case Symbol(v) => Stored(v, value, uniform)
    case Member(_, part, _) => StoredPart(Base(lvalue), part, Number(value, 0), uniform)
    case Index(_) =>
      if !lvalue.kids[1].kind.Const? then map[]
      else
        var i := ConstAt(lvalue.kids[1].kind.vals, l);
        if i < 0 then map[] else StoredPart(Base(lvalue), i, Number(value, 0), uniform)
  }

  function Assigning(lvalue: Node, value: seq<int>, l: Lane, u: Memory, m: Memory, result: seq<int>): LaneResult
    requires LValue(lvalue)
  {
    LaneDone(u + Change(lvalue, value, true, l), m + Change(lvalue, value, false, l), result)
  }

  /** After a scope: its names mean again what they meant before it. */
  function After(before: Memory, inside: Memory, names: set<string>): Memory
  {
    map x | x in before.Keys + inside.Keys && (if x.name in names then x in before else x in inside) ::
        if x.name in names then before[x] else inside[x]
  }

  function LeaveLane(u: Memory, m: Memory, r: LaneResult, names: set<string>): LaneResult
  {
    match r
    case LaneDone(u1, m1, _) => LaneDone(After(u, u1, names), After(m, m1, names), [])
    case Left(u1, m1, how) => Left(After(u, u1, names), After(m, m1, names), how)
    case _ => r
  }

  // ---------- what a lane does ----------

  function Truth(b: bool): int
  {
    if b then 1 else 0
  }

  /** A node whose children have been evaluated. */
  function LaneApply(n: Node, l: Lane, u: Memory, m: Memory, values: seq<seq<int>>, inLoop: bool): LaneResult
  {
    var a, b := First(values, 0), First(values, 1);
    match n.kind
    case Const(vals) => LaneDone(u, m, [ConstAt(vals, l)])
    case Symbol(v) => LaneDone(u, m, LaneRead(u, m, v))
    case Unary(Map(f)) => LaneDone(u, m, [f(a)])
    case Unary(IncDec(delta)) =>
      if n.kids == [] || !LValue(n.kids[0]) then LaneFault else Assigning(n.kids[0], [a + delta], l, u, m, [a])
    case Binary(Op(f)) => LaneDone(u, m, [f(a, b)])
    case Binary(DivMod(f)) => if b == 0 then LaneFault else LaneDone(u, m, [f(a, b)])
    case Assign(None) =>
      if |n.kids| != 2 || |values| != 2 || !LValue(n.kids[0]) then LaneFault
      else Assigning(n.kids[0], values[1], l, u, m, values[1])
    case Assign(Some(Op(f))) =>
      if |n.kids| != 2 || !LValue(n.kids[0]) then LaneFault
      else Assigning(n.kids[0], [f(a, b)], l, u, m, [f(a, b)])
    case Assign(Some(DivMod(f))) =>
      if |n.kids| != 2 || !LValue(n.kids[0]) || b == 0 then LaneFault
      else Assigning(n.kids[0], [f(a, b)], l, u, m, [f(a, b)])
    case Combine(f) => LaneDone(u, m, [f(seq(|values|, i requires 0 <= i < |values| => Number(values[i], 0)))])
    case Index(Array(count)) =>
      if 0 <= b < count && values != [] then LaneDone(u, m, [Number(values[0], b)]) else LaneFault
    case Member(false, part, _) => LaneDone(u, m, [if values == [] then 0 else Number(values[0], part)])
    case Decl(v) =>
      var value := if values == [] then [] else values[0];
      LaneDone(u + Stored(v, value, true), m + Stored(v, value, false), [])
    case Break => Left(u, m, Broke)
    case Continue => if inLoop then Left(u, m, Continued) else LaneDone(u, m, [])
    case Return(slot) => Left(u, m + Stored(slot, if values == [] then [] else values[0], false), Returned)
    case Null => LaneDone(u, m, [])
    case ExprStmt => LaneDone(u, m, [])
    case Block => LaneDone(u, m, [])
    case Label(_, _) => LaneDone(u, m, [])
    case _ => LaneFault
  }

  ghost function LaneRun(n: Node, l: Lane, u: Memory, m: Memory, inLoop: bool, k: nat): LaneResult
    decreases n, 2, 0
  {
    match n.kind
    case If(_) =>
      if |n.kids| != 3 then LaneFault
      else
        var t := LaneRun(n.kids[0], l, u, m, false, k);
        if !t.LaneDone? then t
        else LaneScope(n.kids[if Number(t.value, 0) != 0 then 1 else 2], l, t.u, t.m, inLoop, k)
    case Select(_, _) =>
      if |n.kids| != 3 then LaneFault
      else
        var t := LaneRun(n.kids[0], l, u, m, false, k);
        if !t.LaneDone? then t
        else LaneRun(n.kids[if Number(t.value, 0) != 0 then 1 else 2], l, t.u, t.m, false, k)
    case Logical(op, _) =>
      if |n.kids| != 2 then LaneFault
      else
        var t := LaneRun(n.kids[0], l, u, m, false, k);
        if !t.LaneDone? then t
        else if (Number(t.value, 0) != 0) == (op == Or) then LaneDone(t.u, t.m, [Truth(op == Or)])
        else
          var r := LaneRun(n.kids[1], l, t.u, t.m, false, k);
          if r.LaneDone? then LaneDone(r.u, r.m, [Truth(Number(r.value, 0) != 0)]) else r
    case For =>
      if |n.kids| != 4 then LaneFault
      else
        var r := LaneRun(n.kids[0], l, u, m, false, k);
        if !r.LaneDone? then r else LeaveLane(u, m, LaneFor(n, l, r.u, r.m, k, k), Locals(n))
    case Do => if |n.kids| != 2 then LaneFault else LaneDo(n, l, u, m, k, k)
    case Switch =>
      if n.kids == [] then LaneFault
      else
        var t := LaneRun(n.kids[0], l, u, m, false, k);
        if !t.LaneDone? then t
        else
          var r := LaneLabels(n, LabelOf(n, Number(t.value, 0)), l, t.u, t.m, k);
          LeaveLane(u, m, if r.Left? && r.how == Broke then LaneDone(r.u, r.m, []) else r, Locals(n))
    case _ =>
      var r := LaneKids(n, 0, l, u, m, inLoop, k);
      if r.LaneStopped? then r.r else LaneApply(n, l, r.u, r.m, r.values, inLoop)
  }

  ghost function LaneKids(n: Node, from: nat, l: Lane, u: Memory, m: Memory, inLoop: bool, k: nat): LaneResults
    decreases n, 1, |n.kids| - from
  {
    if from >= |n.kids| then LaneAll(u, m, [])
    else
      var r := LaneRun(n.kids[from], l, u, m, inLoop, k);
      if !r.LaneDone? then LaneStopped(r)
      else
        var rs := LaneKids(n, from + 1, l, r.u, r.m, inLoop, k);
        if rs.LaneStopped? then rs else LaneAll(rs.u, rs.m, [r.value] + rs.values)
  }

  ghost function LaneScope(part: Node, l: Lane, u: Memory, m: Memory, inLoop: bool, k: nat): LaneResult
    decreases part, 3, 0
  {
    LeaveLane(u, m, LaneRun(part, l, u, m, inLoop, k), Declared(part))
  }

  ghost function LaneFor(n: Node, l: Lane, u: Memory, m: Memory, count: nat, k: nat): LaneResult
    requires n.kind.For? && |n.kids| == 4
    decreases n, 1, count
  {
    var t := LaneRun(n.kids[1], l, u, m, false, k);
    if !t.LaneDone? then t
    else if n.kids[1].kind != Null && Number(t.value, 0) == 0 then LaneDone(t.u, t.m, [])
    else if count == 0 then Endless
    else
      var r := LaneScope(n.kids[3], l, t.u, t.m, true, k);
      if r.Left? && r.how == Broke then LaneDone(r.u, r.m, [])
      else if !r.LaneDone? && !(r.Left? && r.how == Continued) then r
      else
        var s := LaneRun(n.kids[2], l, r.u, r.m, false, k);
        if !s.LaneDone? then s else LaneFor(n, l, s.u, s.m, count - 1, k)
  }

  ghost function LaneDo(n: Node, l: Lane, u: Memory, m: Memory, count: nat, k: nat): LaneResult
    requires n.kind.Do? && |n.kids| == 2
    decreases n, 1, count
  {
    var r := LaneScope(n.kids[0], l, u, m, true, k);
    if r.Left? && r.how == Broke then LaneDone(r.u, r.m, [])
    else if !r.LaneDone? && !(r.Left? && r.how == Continued) then r
    else
      var t := LaneRun(n.kids[1], l, r.u, r.m, false, k);
      if !t.LaneDone? then t
      else if n.kids[1].kind != Null && Number(t.value, 0) == 0 then LaneDone(t.u, t.m, [])
      else if count == 0 then Endless
      else LaneDo(n, l, t.u, t.m, count - 1, k)
  }

  /** The label that a switch goes to: the one with the value, or default, or none. */
  function LabelOf(n: Node, v: int): (i: nat)
    requires n.kids != []
    ensures 1 <= i <= |n.kids|
  {
    var i := Find(n, Some(v), 1);
    if i < |n.kids| then i else Find(n, None, 1)
  }

  function Find(n: Node, caseValue: Option<int>, from: nat): (i: nat)
    requires from <= |n.kids|
    ensures from <= i <= |n.kids|
    ensures i < |n.kids| ==> n.kids[i].kind.Label? && n.kids[i].kind.caseValue == caseValue
    ensures forall j :: from <= j < i ==> !(n.kids[j].kind.Label? && n.kids[j].kind.caseValue == caseValue)
    decreases |n.kids| - from
  {
    if from == |n.kids| || (n.kids[from].kind.Label? && n.kids[from].kind.caseValue == caseValue) then from
    else Find(n, caseValue, from + 1)
  }

  /** The statements from the i-th label on. */
  ghost function LaneLabels(n: Node, i: nat, l: Lane, u: Memory, m: Memory, k: nat): LaneResult
    requires n.kind.Switch? && n.kids != []
    decreases n, 1, |n.kids| - i
  {
    if i >= |n.kids| then LaneDone(u, m, [])
    else
      var r := LaneRun(n.kids[i], l, u, m, false, k);
      if !r.LaneDone? then r else LaneLabels(n, i + 1, l, r.u, r.m, k)
  }

  // ---------- code that lanes can run on their own ----------

  /** No break, continue or return. */
  predicate NoJump(n: Node)
  {
    !n.kind.Break? && !n.kind.Continue? && !n.kind.Return? && forall i :: 0 <= i < |n.kids| ==> NoJump(n.kids[i])
  }

  predicate UnderIn(n: Node, under: bool)
  {
    under || (n.kind.If? && n.kids != [] && !Uniform(n.kids[0]))
  }

  predicate OwnsJumps(kind: Kind)
  {
    kind.For? || kind.Do? || kind.Switch?
  }

  /** Is there a break (or a continue) under a varying if, outside of inner loops and
      switches? */
  predicate VaryingJump(n: Node, under: bool, isBreak: bool)
  {
    if n.kind.Break? then under && isBreak
    else if n.kind.Continue? then under && !isBreak
    else
      !OwnsJumps(n.kind)
      && exists i :: 0 <= i < |n.kids| && VaryingJump(n.kids[i], UnderIn(n, under), isBreak)
  }

  /** Is there a break that no varying if and no inner loop or switch is around? */
  predicate DirectBreak(n: Node)
  {
    n.kind.Break?
    || (!OwnsJumps(n.kind) && !UnderIn(n, false) && exists i :: 0 <= i < |n.kids| && DirectBreak(n.kids[i]))
  }

  /** The p-th part of the value is the same in every lane. */
  predicate EvenPart(n: Node, p: nat)
  {
    || Uniform(n) || (n.kind.Symbol? && p < |n.kind.variable.parts| && n.kind.variable.parts[p])
    || (p == 0 && EvenElement(n))
  }

  predicate EvenElement(n: Node)
  {
    && n.kind.Index? && LValue(n) && n.kids[1].kind.Const? && |n.kids[1].kind.vals| == 1
    && 0 <= n.kids[1].kind.vals[0] < |Base(n).parts| && Base(n).parts[n.kids[1].kind.vals[0]]
  }

  predicate FitsParts(v: Variable, n: Node)
  {
    forall p :: 0 <= p < |v.parts| && v.parts[p] ==> EvenPart(n, p)
  }

  /** All parts of a uniform variable are uniform. */
  predicate VarOK(v: Variable)
  {
    v.uniform ==> forall p :: 0 <= p < |v.parts| ==> v.parts[p]
  }

  /** A store whose index, if any, is a constant; the value of a uniform part is even. */
  predicate StoreFits(lvalue: Node, n: Node)
    requires LValue(lvalue)
  {
    match lvalue.kind
    case Symbol(v) => FitsParts(v, n)
    case Member(_, part, _) => Base(lvalue).parts[part] ==> EvenPart(n, 0)
    case Index(_) => ElementFits(lvalue, EvenPart(n, 0))
  }

  predicate ElementFits(lvalue: Node, even: bool)
    requires lvalue.kind.Index? && LValue(lvalue)
  {
    && lvalue.kids[1].kind.Const?
    && var vals := lvalue.kids[1].kind.vals;
       if |vals| != 1 then !HasUniformPart(Base(lvalue))
       else 0 <= vals[0] < |Base(lvalue).parts| && Base(lvalue).parts[vals[0]] ==> even
  }

  /** What is stored to is one number. */
  predicate OneNumber(lvalue: Node)
    requires LValue(lvalue)
  {
    (lvalue.kind.Symbol? ==> |lvalue.kind.variable.parts| == 1) && (lvalue.kind.Index? ==> ElementFits(lvalue, true))
  }

  /** With the types of its children and its place in a gang of g lanes, at depth d. */
  predicate Shaped(n: Node, d: nat, g: nat)
  {
    match n.kind
    case Null => n.kids == []
    case Const(vals) => n.kids == [] && (|vals| == 1 || |vals| == g)
    case Symbol(v) => n.kids == [] && VarOK(v)
    case Unary(Map(_)) => |n.kids| == 1
    case Unary(IncDec(_)) => |n.kids| == 1 && LValue(n.kids[0]) && OneNumber(n.kids[0])
    case Binary(_) => |n.kids| == 2
    case Assign(compound) =>
      |n.kids| == 2 && LValue(n.kids[0]) && StoreFits(n.kids[0], n.kids[1])
      && (Uniform(n.kids[0]) ==> Uniform(n.kids[1]))
      && (compound.Some? ==> OneNumber(n.kids[0]))
    case Combine(_) => true
    case Index(base) => |n.kids| == 2 && IsVariable(n.kids[0]) && base == Array(|Base(n).parts|)
    case Member(_, _, _) => LValue(n)
    case Decl(v) => |n.kids| <= 1 && VarOK(v) && (n.kids != [] ==> FitsParts(v, n.kids[0]))
    case Return(slot) => |n.kids| <= 1 && !slot.uniform && !HasUniformPart(slot)
    case Logical(_, _) => OperandsOK(n, d)
    case Select(_, _) => OperandsOK(n, d)
    case If(_) => |n.kids| == 3 && NoJump(n.kids[0]) && (!Uniform(n.kids[0]) ==> Changes(n, d) == {})
    case For => |n.kids| == 4 && ForOK(n, d)
    case Do => |n.kids| == 2 && DoOK(n, d)
    case Switch => n.kids != [] && SwitchOK(n, d)
    case Break => n.kids == []
    case Continue => n.kids == []
    case kind => kind.ExprStmt? || kind.Block? || kind.Label?
  }

  /** Operands that may not be wanted store nothing that is not masked, and second
      operands that are always evaluated only compute. */
  predicate OperandsOK(n: Node, d: nat)
  {
    && |n.kids| == (if n.kind.Logical? then 2 else 3)
    && (forall i :: 0 <= i < |n.kids| ==> NoJump(n.kids[i]))
    && (forall i :: 1 <= i < |n.kids| ==> Changes(n.kids[i], d) == {})
    && (n.kind.Logical? && !n.kind.shortCircuit ==> Pure(n.kids[1]))
  }

  /** What the body of a loop with varying control flow may not do: jump out directly while
      lanes may be parked by a continue, or store without a mask to what outlives it,
      which these lanes will use in the next iteration. */
  predicate BodyOK(n: Node, i: nat, d: nat)
    requires i < |n.kids|
  {
    VaryingJump(n.kids[i], false, false) ==> !DirectBreak(n.kids[i]) && KidChanges(n, i, d) == {}
  }

  predicate ForOK(n: Node, d: nat)
    requires n.kind.For? && |n.kids| == 4
  {
    && (forall i :: 0 <= i < 3 ==> NoJump(n.kids[i]))
    && (!UniformLoop(n.kids[1], n.kids[3]) ==> Changes(n, d) == {}) && BodyOK(n, 3, d)
  }

  predicate DoOK(n: Node, d: nat)
    requires n.kind.Do? && |n.kids| == 2
  {
    && NoJump(n.kids[1]) && n.kids[1].kind != Null
    && (!UniformLoop(n.kids[1], n.kids[0]) ==> Changes(n, d) == {}) && BodyOK(n, 0, d)
  }

  predicate DistinctLabels(n: Node)
  {
    forall i, j :: 1 <= i < j < |n.kids| && n.kids[i].kind.Label? && n.kids[j].kind.Label? ==>
      n.kids[i].kind.caseValue != n.kids[j].kind.caseValue
  }

  /** No two labels are the same, and what is declared at a label of a varying switch is
      declared in a scope of its own. */
  predicate SwitchOK(n: Node, d: nat)
    requires n.kids != []
  {
    && NoJump(n.kids[0])
    && DistinctLabels(n)
    && (!UniformFlow(n) ==> Changes(n, d) == {})
    && (!Uniform(n.kids[0]) ==> KidsChange(n, 1, d) == {})
  }

  predicate LaneCode(n: Node, d: nat, g: nat)
  {
    Shaped(n, d, g) && forall i: nat :: i < |n.kids| ==> LaneCode(n.kids[i], KidDepth(n, i, d), g)
  }
}
