/** The masked run of the trees that SafeToRunWithMaskAllOff looks at: expressions can
    fault and have effects that no mask holds back, such as stores to uniform
    variables, divisions and calls.  What memory accesses through pointers, allocations,
    prints, assertions and the like do is a parameter. */
module AllOffRun {
  import opened MaskContext
  import opened AllOffSafety

  /** A part of a variable.  A name stands for one variable, so it is declared once. */
  datatype Loc = Loc(name: string, part: nat)

  type Memory = map<Loc, int>

  /** The parts of a value, each with an element for every lane; a uniform one has the
      same in all of them. */
  type Value = seq<seq<int>>

  datatype St = St(
    mask: Mask, broke: Mask, continued: Mask, returned: Mask,
    uni: Memory, vars: seq<Memory>, heap: map<int, int>)

  /** Jumped: control has left for the end of the innermost loop or switch, or of the
      iteration. */
  datatype Result = Done(st: St, value: Value) | Jumped(st: St, toBreak: bool) | Fault | Unfinished

  /** The results of some children in order, or the first one that is not done. */
  datatype Results = AllDone(st: St, values: seq<Value>) | Stopped(r: Result)

  /** A function that is called: whether its type is declared safe, and what it does. */
  datatype Callee = Callee(safe: bool, run: (St, seq<Value>) -> Result)

  /** `stray` is what reading an element past the last lane of a vector gives; `effect` is
      what the other kinds of node do, given the values of their children. */
  datatype Env = Env(functions: map<string, Callee>, stray: int, effect: (Node, St, seq<Value>) -> Result)

  /** Where code stands: does a break or continue jump, how many varying constructs are
      around, and is there a loop to continue. */
  datatype Place = Place(direct: bool, depth: nat, canContinue: bool)

  function Plain(d: nat): Place
  {
    Place(false, d, false)
  }

  // ---------- values ----------

  function InLane(c: seq<int>, l: nat): int
  {
    if l < |c| then c[l] else 0
  }

  function Part(value: Value, p: nat): seq<int>
  {
    if p < |value| then value[p] else []
  }

  /** An atomic value has one part. */
  function Scalar(values: seq<Value>, i: nat): seq<int>
  {
    if i < |values| then Part(values[i], 0) else []
  }

  function Column(values: seq<Value>, l: nat): seq<int>
  {
    seq(|values|, i requires 0 <= i < |values| => InLane(Part(values[i], 0), l))
  }

  function Spread(vals: seq<int>, width: nat): seq<int>
  {
    seq(width, l requires 0 <= l < width =>
        if |vals| == 1 then vals[0] else if l < |vals| then vals[l] else 0)
  }

  /** The lanes whose value is not zero. */
  function TrueLanes(st: St, c: seq<int>): Mask
  {
    set l: Lane | l < |st.vars| && InLane(c, l) != 0
  }

  // ---------- variables ----------

  function Held(memory: Memory, x: Loc): int
  {
    if x in memory then memory[x] else 0
  }

  function ReadPart(st: St, v: Variable, p: nat): seq<int>
    requires p < |v.parts|
  {
    if v.parts[p] then Spread([Held(st.uni, Loc(v.name, p))], |st.vars|)
    else seq(|st.vars|, l requires 0 <= l < |st.vars| => Held(st.vars[l], Loc(v.name, p)))
  }

  function ReadVar(st: St, v: Variable): Value
  {
    seq(|v.parts|, p requires 0 <= p < |v.parts| => ReadPart(st, v, p))
  }

  /** A store to one part: a uniform one is written in any case, a varying one in the
      lanes that are on, or in all of them. */
  function WritePart(st: St, v: Variable, p: nat, c: seq<int>, everywhere: bool): (st1: St)
    ensures st1 == st.(uni := st1.uni, vars := st1.vars) && |st1.vars| == |st.vars|
  {
    if p < |v.parts| && v.parts[p] then st.(uni := st.uni[Loc(v.name, p) := InLane(c, 0)])
    else
      st.(vars := seq(|st.vars|, l requires 0 <= l < |st.vars| =>
          if everywhere || l in st.mask then st.vars[l][Loc(v.name, p) := InLane(c, l)] else st.vars[l]))
  }

  /** The store of a structure goes member by member. */
  function WriteParts(st: St, v: Variable, value: Value, p: nat, everywhere: bool): (st1: St)
    ensures st1 == st.(uni := st1.uni, vars := st1.vars) && |st1.vars| == |st.vars|
    decreases |v.parts| - p
  {
    if p >= |v.parts| then st
    else WriteParts(WritePart(st, v, p, Part(value, p), everywhere), v, value, p + 1, everywhere)
  }

  /** A scatter: the lanes from l on that are on write the element that they index. */
  function Scatter(st: St, v: Variable, indices: seq<int>, c: seq<int>, l: nat): (st1: St)
    ensures st1 == st.(uni := st1.uni, vars := st1.vars) && |st1.vars| == |st.vars|
    decreases |st.vars| - l
  {
    if l >= |st.vars| then st
    else if l !in st.mask || !(0 <= InLane(indices, l) < |v.parts|) then Scatter(st, v, indices, c, l + 1)
    else if v.parts[InLane(indices, l)] then
      Scatter(st.(uni := st.uni[Loc(v.name, InLane(indices, l)) := InLane(c, l)]), v, indices, c, l + 1)
    else
      var lane := st.vars[l][Loc(v.name, InLane(indices, l)) := InLane(c, l)];
      Scatter(st.(vars := st.vars[l := lane]), v, indices, c, l + 1)
  }

  /** A store to an lvalue; the index of an element is a constant. */
  function Store(st: St, lvalue: Node, value: Value, d: nat): (st1: St)
    requires LValue(lvalue)
    ensures st1 == st.(uni := st1.uni, vars := st1.vars) && |st1.vars| == |st.vars|
  {
    var v := Base(lvalue);
    match lvalue.kind
    case Symbol(_) => WriteParts(st, v, value, 0, Unmasked(v, d))
    case Member(_, part, _) => WritePart(st, v, part, Part(value, 0), Unmasked(v, d))
    case Index(_) =>
      match lvalue.kids[1].kind
      case Const(vals) =>
        if |vals| != 1 then Scatter(st, v, Spread(vals, |st.vars|), Part(value, 0), 0)
        else if 0 <= vals[0] < |v.parts| then WritePart(st, v, vals[0], Part(value, 0), Unmasked(v, d))
        else st
      case _ => st
  }

  /** A declaration initializes every lane. */
  function Declare(st: St, v: Variable, value: Value): St
  {
    WriteParts(st, v, value, 0, true)
  }

  /** At the end of a scope its variables are gone. */
  function Outside(st: Memory, st1: Memory, names: set<string>): Memory
  {
    (map x | x in st1 && x.name !in names :: st1[x]) + (map x | x in st && x.name in names :: st[x])
  }

  function LeaveScope(st: St, st1: St, names: set<string>): St
  {
    st1.(uni := Outside(st.uni, st1.uni, names),
         vars := seq(|st1.vars|, l requires 0 <= l < |st1.vars| =>
             if l < |st.vars| then Outside(st.vars[l], st1.vars[l], names) else st1.vars[l]))
  }

  // ---------- operations ----------

  /** Is each access allowed?  A uniform one happens in any case, a varying one in the
      lanes that are on. */
  predicate AccessOK(st: St, uniform: bool, c: seq<int>, allowed: int -> bool)
  {
    if uniform then allowed(InLane(c, 0))
    else forall l: Lane :: l < |st.vars| && l in st.mask ==> allowed(InLane(c, l))
  }

  function Element(st: St, uniform: bool, count: nat, elements: Value, indices: seq<int>): (r: Result)
    ensures r.Fault? || (r.Done? && r.st == st)
  {
    if AccessOK(st, uniform, indices, i => 0 <= i < count)
    then Done(st, [seq(|st.vars|, l requires 0 <= l < |st.vars| =>
        if InLane(indices, l) >= 0 then InLane(Part(elements, InLane(indices, l)), l) else 0)])
    else Fault
  }

  /** A constant that is the same in every lane. */
  predicate Splat(n: Node)
  {
    n.kind.Const? && n.kind.vals != [] && forall v :: v in n.kind.vals ==> v == n.kind.vals[0]
  }

  /** An integer division by b, whose value is c: one division if it is uniform, one in
      every lane if the divisor is a known constant, else one for each lane that is on,
      and with no lane on one of an element past the last lane. */
  predicate Divides(uniform: bool, b: Node, c: seq<int>, st: St, env: Env)
  {
    if uniform then InLane(c, 0) != 0
    else if Splat(b) then b.kind.vals[0] != 0
    else if st.mask == {} then env.stray != 0
    else forall l: Lane :: l < |st.vars| && l in st.mask ==> InLane(c, l) != 0
  }

  /** The operation of n on the values a and b of its two operands. */
  function Operate(n: Node, op: BinaryOp, a: seq<int>, b: seq<int>, st: St, env: Env): (r: Result)
    ensures r.Fault? || (r.Done? && r.st == st)
  {
    if op.DivMod? && |n.kids| == 2 && !Divides(Uniform(n), n.kids[1], b, st, env) then Fault
    else Done(st, [seq(|st.vars|, l requires 0 <= l < |st.vars| => op.f(InLane(a, l), InLane(b, l)))])
  }

  function Assigned(n: Node, op: Option<BinaryOp>, values: seq<Value>, st: St, env: Env): (r: Result)
    ensures r.Fault? || (r.Done? && r.st == st)
  {
    if op.None? then Done(st, if |values| > 1 then values[1] else [])
    else Operate(n, op.value, Scalar(values, 0), Scalar(values, 1), st, env)
  }

  function Stepped(st: St, c: seq<int>, delta: int): seq<int>
  {
    seq(|st.vars|, l requires 0 <= l < |st.vars| => InLane(c, l) + delta)
  }

  function Both(op: LogicalOp, a: int, b: int): int
  {
    match op
    case And => if a != 0 && b != 0 then 1 else 0
    case Or => if a != 0 || b != 0 then 1 else 0
  }

  function Combined(op: LogicalOp, st: St, a: seq<int>, b: seq<int>): seq<int>
  {
    seq(|st.vars|, l requires 0 <= l < |st.vars| => Both(op, InLane(a, l), InLane(b, l)))
  }

  /** What a node does once its children have been evaluated.  A break or continue that
      no varying control flow separates from its target jumps, whatever the mask is. */
  function Apply(n: Node, st: St, values: seq<Value>, env: Env, w: Place): Result
  {
    var width, v0 := |st.vars|, Scalar(values, 0);
    match n.kind
    case Const(vals) => Done(st, [Spread(vals, width)])
    case Symbol(v) => Done(st, ReadVar(st, v))
    case Unary(Map(f)) => Done(st, [seq(width, l requires 0 <= l < width => f(InLane(v0, l)))])
    case Unary(IncDec(delta)) =>
      if n.kids == [] || !LValue(n.kids[0]) then Fault
      else Done(Store(st, n.kids[0], [Stepped(st, v0, delta)], w.depth), [v0])
    case Binary(op) => Operate(n, op, v0, Scalar(values, 1), st, env)
    case Logical(op, _) => Done(st, [Combined(op, st, v0, Scalar(values, 1))])
    case Assign(compound) =>
      if n.kids == [] || !LValue(n.kids[0]) then Fault
      else
        var r := Assigned(n, compound, values, st, env);
        if r.Done? then Done(Store(st, n.kids[0], r.value, w.depth), r.value) else r
    case Combine(f) => Done(st, [seq(width, l requires 0 <= l < width => f(Column(values, l)))])
    case Index(Array(count)) =>
      Element(st, Uniform(n), count, if values == [] then [] else values[0], Scalar(values, 1))
    case Member(false, part, _) => Done(st, [if values == [] then [] else Part(values[0], part)])
    case Call(func, _, _) =>
      if func.Some? && func.value in env.functions then env.functions[func.value].run(st, values) else Fault
    case Decl(v) => Done(Declare(st, v, if values == [] then [] else values[0]), [])
    case Break => if w.direct then Jumped(st, true) else Done(st.(broke := st.broke + st.mask, mask := {}), [])
    case Continue =>
      if !w.canContinue then Done(st, [])
      else if w.direct then Jumped(st, false)
      else Done(st.(continued := st.continued + st.mask, mask := {}), [])
    case Return(slot) =>
      var st1 := WriteParts(st, slot, if values == [] then [] else values[0], 0, slot.uniform);
      Done(st1.(returned := st.returned + st.mask, mask := {}), [])
    case Null => Done(st, [])
    case ExprStmt => Done(st, [])
    case Block => Done(st, [])
    case Label(_, _) => Done(st, [])
    case _ => env.effect(n, st, values)
  }

  // ---------- the run ----------

  /** Its children are run in order and then it does its own part. */
  predicate Strict(kind: Kind)
  {
    && !kind.If? && !kind.For? && !kind.Do? && !kind.Switch? && !kind.Foreach? && !kind.Select?
    && !NullCall(kind) && (kind.Logical? ==> !kind.shortCircuit)
  }

  /** A call whose callee is missing emits nothing, not even its arguments. */
  predicate NullCall(kind: Kind)
  {
    kind.Call? && kind.func.None?
  }

  /** The value of a loop test; a missing one is true. */
  function TestValue(test: Node, t: Result): seq<int>
    requires t.Done?
  {
    if test.kind == Null then Spread([1], |t.st.vars|) else Part(t.value, 0)
  }

  /** The state after a loop test: a varying one turns lanes off. */
  function Tested(test: Node, uniformLoop: bool, t: Result): St
    requires t.Done?
  {
    if uniformLoop then t.st else t.st.(mask := t.st.mask * TrueLanes(t.st, TestValue(test, t)))
  }

  predicate Stops(test: Node, uniformLoop: bool, t: Result)
    requires t.Done?
  {
    if uniformLoop then test.kind != Null && InLane(Part(t.value, 0), 0) == 0 else Tested(test, false, t).mask == {}
  }

  function EnterLoop(st: St): St
  {
    st.(broke := {}, continued := {})
  }

  function NextIteration(st: St): St
  {
    st.(mask := st.mask + st.continued, continued := {}, broke := {})
  }

  function FinishLoop(st: St, r: Result): Result
  {
    if r.Done? then Done(r.st.(mask := st.mask - r.st.returned, broke := st.broke, continued := st.continued), [])
    else r
  }

  /** The place of a loop's body, and of a switch's labels. */
  function Body(n: Node, d: nat): Place
  {
    Place(true, KidDepth(n, 0, d), true)
  }

  function Labels(n: Node, d: nat): Place
    requires n.kids != []
  {
    Place(Uniform(n.kids[0]), KidDepth(n, 1, d), false)
  }

  /** The end of the scope that was entered in st. */
  function Leave(st: St, r: Result, names: set<string>): Result
  {
    match r
    case Done(st1, _) => Done(LeaveScope(st, st1, names), [])
    case Jumped(st1, toBreak) => Jumped(LeaveScope(st, st1, names), toBreak)
    case _ => r
  }

  ghost function Run(n: Node, st: St, env: Env, w: Place, k: nat): Result
    decreases n, 2, 0
  {
    if Strict(n.kind) then
      var r := RunKids(n, 0, st, env, w, k);
      if r.Stopped? then r.r else Apply(n, r.st, r.values, env, w)
    else match n.kind
      case If(_) => if |n.kids| == 3 then RunIf(n, st, env, w, k) else Fault
      case Select(_, _) => if |n.kids| == 3 then RunSelect(n, st, env, w, k) else Fault
      case Logical(_, _) => if |n.kids| == 2 then RunLogical(n, st, env, w, k) else Fault
      case For =>
        if |n.kids| != 4 then Fault
        else
          var r := Run(n.kids[0], st, env, Plain(KidDepth(n, 0, w.depth)), k);
          if !r.Done? then r
          else Leave(st, FinishLoop(st, RunFor(n, EnterLoop(r.st), env, w.depth, k, k)), Locals(n))
      case Do => if |n.kids| == 2 then FinishLoop(st, RunDo(n, EnterLoop(st), env, w.depth, k, k)) else Fault
      case Switch => if n.kids != [] then RunSwitch(n, st, env, w, k) else Fault
      case Call(_, _, _) => Done(st, [])
      case _ => env.effect(n, st, [])
  }

  ghost function RunKids(n: Node, from: nat, st: St, env: Env, w: Place, k: nat): Results
    decreases n, 1, |n.kids| - from
  {
    if from >= |n.kids| then AllDone(st, [])
    else
      var r := Run(n.kids[from], st, env, w, k);
      if !r.Done? then Stopped(r)
      else
        var rs := RunKids(n, from + 1, r.st, env, w, k);
        if rs.Stopped? then rs else AllDone(rs.st, [r.value] + rs.values)
  }

  /** A side of an if or the body of a loop, in its own scope. */
  ghost function RunScope(part: Node, st: St, env: Env, w: Place, k: nat): Result
    decreases part, 3, 0
  {
    Leave(st, Run(part, st, env, w, k), Declared(part))
  }

  /** One side of a varying if. */
  ghost function RunSide(side: Node, st: St, branch: bool, env: Env, w: Place, k: nat): Result
    decreases side, 4, 0
  {
    if branch && st.mask == {} then Done(st, []) else RunScope(side, st, env, w, k)
  }

  ghost function RunIf(n: Node, st: St, env: Env, w: Place, k: nat): Result
    requires n.kind.If? && |n.kids| == 3
    decreases n, 1, 0
  {
    var t := Run(n.kids[0], st, env, Plain(w.depth), k);
    if !t.Done? then t
    else if Uniform(n.kids[0]) then
      RunScope(n.kids[if InLane(Part(t.value, 0), 0) != 0 then 1 else 2], t.st, env, w, k)
    else RunSides(n, t.st, TrueLanes(t.st, Part(t.value, 0)), env, w, k)
  }

  ghost function RunSides(n: Node, st: St, test: Mask, env: Env, w: Place, k: nat): Result
    requires n.kind.If? && |n.kids| == 3
    decreases n, 0, 0
  {
    var w1 := Place(false, w.depth + 1, w.canContinue);
    var r := RunSide(n.kids[1], st.(mask := st.mask * test), n.kind.branch, env, w1, k);
    if !r.Done? then r
    else
      var r2 := RunSide(n.kids[2], r.st.(mask := st.mask - test), n.kind.branch, env, w1, k);
      if !r2.Done? then r2
      else Done(r2.st.(mask := st.mask - r2.st.returned - r2.st.broke - r2.st.continued), [])
  }

  /** One operand of a varying select, skipped or not if it is wanted in no lane. */
  ghost function RunOperand(operand: Node, st: St, shortCircuit: bool, env: Env, d: nat, k: nat): Result
    decreases operand, 3, 0
  {
    if shortCircuit && st.mask == {} then Done(st, []) else Run(operand, st, env, Plain(d), k)
  }

  /** A select changes the mask, but it is no varying construct that variables could be
      declared outside of. */
  ghost function RunSelect(n: Node, st: St, env: Env, w: Place, k: nat): Result
    requires n.kind.Select? && |n.kids| == 3
    decreases n, 1, 0
  {
    var t := Run(n.kids[0], st, env, Plain(w.depth), k);
    if !t.Done? then t
    else if Uniform(n.kids[0]) then
      Run(n.kids[if InLane(Part(t.value, 0), 0) != 0 then 1 else 2], t.st, env, Plain(w.depth), k)
    else RunOperands(n, t.st, TrueLanes(t.st, Part(t.value, 0)), env, w.depth, k)
  }

  ghost function RunOperands(n: Node, st: St, test: Mask, env: Env, d: nat, k: nat): Result
    requires n.kind.Select? && |n.kids| == 3
    decreases n, 0, 0
  {
    var r := RunOperand(n.kids[1], st.(mask := st.mask * test), n.kind.shortCircuit1, env, d, k);
    if !r.Done? then r
    else
      var r2 := RunOperand(n.kids[2], r.st.(mask := st.mask - test), n.kind.shortCircuit2, env, d, k);
      if !r2.Done? then r2
      else Done(r2.st.(mask := st.mask), Selected(st, test, r.value, r2.value))
  }

  function Selected(st: St, test: Mask, a: Value, b: Value): Value
  {
    seq(if |a| < |b| then |b| else |a|, p requires p >= 0 =>
        seq(|st.vars|, l requires 0 <= l < |st.vars| =>
            if l in test then InLane(Part(a, p), l) else InLane(Part(b, p), l)))
  }

  /** The lanes in which the first operand leaves the result open. */
  function Undecided(op: LogicalOp, st: St, a: seq<int>): Mask
  {
    if op == And then st.mask * TrueLanes(st, a) else st.mask - TrueLanes(st, a)
  }

  /** && and || that evaluate the second operand only where it is needed. */
  ghost function RunLogical(n: Node, st: St, env: Env, w: Place, k: nat): Result
    requires n.kind.Logical? && |n.kids| == 2
    decreases n, 1, 0
  {
    var t := Run(n.kids[0], st, env, Plain(w.depth), k);
    if !t.Done? then t
    else
      var a := Part(t.value, 0);
      if Uniform(n.kids[0]) then
        if (InLane(a, 0) != 0) == (n.kind.logical == Or)
        then Done(t.st, [Spread([if n.kind.logical == Or then 1 else 0], |t.st.vars|)])
        else Truths(Run(n.kids[1], t.st, env, Plain(w.depth), k))
      else RunSecond(n, t.st, a, env, w.depth, k)
  }

  ghost function RunSecond(n: Node, st: St, a: seq<int>, env: Env, d: nat, k: nat): Result
    requires n.kind.Logical? && |n.kids| == 2
    decreases n, 0, 0
  {
    var on := Undecided(n.kind.logical, st, a);
    if on == {} then Truths(Done(st, [a]))
    else
      var r := Run(n.kids[1], st.(mask := on), env, Plain(d), k);
      if !r.Done? then r
      else Done(r.st.(mask := st.mask), [Decided(n.kind.logical, st, on, a, Part(r.value, 0))])
  }

  /** The value as a bool. */
  function Truths(r: Result): Result
  {
    if !r.Done? then r
    else Done(r.st, [seq(|r.st.vars|, l requires 0 <= l < |r.st.vars| =>
        if InLane(Part(r.value, 0), l) != 0 then 1 else 0)])
  }

  function Decided(op: LogicalOp, st: St, on: Mask, a: seq<int>, b: seq<int>): seq<int>
  {
    seq(|st.vars|, l requires 0 <= l < |st.vars| =>
        if l in on then Both(op, InLane(a, l), InLane(b, l)) else if l in st.mask && InLane(a, l) != 0 then 1 else 0)
  }

  ghost function RunFor(n: Node, st: St, env: Env, d: nat, count: nat, k: nat): Result
    requires n.kind.For? && |n.kids| == 4
    decreases n, 1, count
  {
    var uniformLoop := UniformLoop(n.kids[1], n.kids[3]);
    var w := Plain(KidDepth(n, 0, d));
    var t := Run(n.kids[1], st, env, w, k);
    if !t.Done? then t
    else if Stops(n.kids[1], uniformLoop, t) then Done(Tested(n.kids[1], uniformLoop, t), [])
    else if count == 0 then Unfinished
    else
      var r := RunScope(n.kids[3], Tested(n.kids[1], uniformLoop, t), env, Body(n, d), k);
      if r.Jumped? && r.toBreak then Done(r.st, [])
      else if !r.Done? && !r.Jumped? then r
      else
        var r2 := Run(n.kids[2], NextIteration(r.st), env, w, k);
        if !r2.Done? then r2 else RunFor(n, r2.st, env, d, count - 1, k)
  }

  ghost function RunDo(n: Node, st: St, env: Env, d: nat, count: nat, k: nat): Result
    requires n.kind.Do? && |n.kids| == 2
    decreases n, 1, count
  {
    var uniformLoop := UniformLoop(n.kids[1], n.kids[0]);
    var r := RunScope(n.kids[0], st, env, Body(n, d), k);
    if r.Jumped? && r.toBreak then Done(r.st, [])
    else if !r.Done? && !r.Jumped? then r
    else
      var t := Run(n.kids[1], NextIteration(r.st), env, Plain(KidDepth(n, 0, d)), k);
      if !t.Done? then t
      else if Stops(n.kids[1], uniformLoop, t) then Done(Tested(n.kids[1], uniformLoop, t), [])
      else if count == 0 then Unfinished
      else RunDo(n, Tested(n.kids[1], uniformLoop, t), env, d, count - 1, k)
  }

  // ---------- switch ----------

  predicate HasCase(n: Node, v: int)
  {
    exists i :: 1 <= i < |n.kids| && n.kids[i].kind.Label? && n.kids[i].kind.caseValue == Some(v)
  }

  /** Does a lane with the value v start at this label? */
  predicate Matches(n: Node, kid: Node, v: int)
  {
    kid.kind.Label? && if kid.kind.caseValue.Some? then kid.kind.caseValue.value == v else !HasCase(n, v)
  }

  /** The lanes of a varying switch that start at the i-th label. */
  function Starting(n: Node, i: nat, entry: Mask, c: seq<int>): Mask
    requires i < |n.kids|
  {
    set l: Lane | l in entry && Matches(n, n.kids[i], InLane(c, l))
  }

  ghost function RunSwitch(n: Node, st: St, env: Env, w: Place, k: nat): Result
    requires n.kind.Switch? && n.kids != []
    decreases n, 1, |n.kids| + 1
  {
    var t := Run(n.kids[0], st, env, Plain(w.depth), k);
    if !t.Done? then t
    else
      var c := Part(t.value, 0);
      var st1 := t.st.(broke := {}, mask := if Uniform(n.kids[0]) then t.st.mask else {});
      Leave(st, FinishSwitch(t.st, RunLabels(n, 1, st1, t.st.mask, c, !Uniform(n.kids[0]), env, w.depth, k)), Locals(n))
  }

  function FinishSwitch(st: St, r: Result): Result
  {
    if r.Done? then Done(r.st.(mask := st.mask - r.st.returned, broke := st.broke), []) else r
  }

  /** The labels from the i-th on.  `started`: does the path go through them?  In a varying
      switch it does; in a uniform one from the matching label on. */
  ghost function RunLabels(
    n: Node, i: nat, st: St, entry: Mask, c: seq<int>, started: bool, env: Env, d: nat, k: nat): Result
    requires n.kind.Switch? && n.kids != []
    decreases n, 1, |n.kids| - i
  {
    if i >= |n.kids| then Done(st, [])
    else
      var uniform := Uniform(n.kids[0]);
      var now := started || Matches(n, n.kids[i], InLane(c, 0));
      var st1 := if uniform then st else st.(mask := st.mask + Starting(n, i, entry, c));
      if !now || (!uniform && n.kids[i].kind.Label? && n.kids[i].kind.checkMask && st1.mask == {})
      then RunLabels(n, i + 1, st1, entry, c, now, env, d, k)
      else
        var r := Run(n.kids[i], st1, env, Labels(n, d), k);
        if r.Jumped? && r.toBreak then Done(r.st, [])
        else if !r.Done? then r
        else RunLabels(n, i + 1, r.st, entry, c, now, env, d, k)
  }
}
