/** Programs that the analysis finds safe and that go wrong with no lane on. */
module AllOffWitnesses {
  import opened MaskContext
  import opened AllOffSafety
  import opened AllOffRun
  import opened AllOffSoundness
  import opened AllOffLoops
  import opened Predication

  /** A varying int that is declared outside of all varying control flow. */
  predicate IsInt(v: Variable)
  {
    v == Variable(v.name, false, [false], 0, true)
  }

  function Read(v: Variable): Node
  {
    Node(Symbol(v), [])
  }

  function Literal(v: int): Node
  {
    Node(Const([v]), [])
  }

  const Nothing := Node(Null, [])

  /** No lane that is on passes the test v. */
  predicate NonePass(st: St, v: Variable)
  {
    v.parts == [false] && forall l: Lane :: l < |st.vars| && l in st.mask ==> InLane(ReadPart(st, v, 0), l) == 0
  }

  /** Lanes that are on have not left. */
  predicate Live(st: St)
  {
    st.mask !! st.returned + st.broke + st.continued
  }

  lemma LiteralRuns(v: int, st: St, env: Env, w: Place, k: nat)
    ensures Run(Literal(v), st, env, w, k) == Done(st, [Spread([v], |st.vars|)])
  {
    LeafRuns(Literal(v), st, env, w, k);
    hide Run;
  }

  lemma LeafRuns(n: Node, st: St, env: Env, w: Place, k: nat)
    requires n.kids == [] && Strict(n.kind)
    ensures Run(n, st, env, w, k) == Apply(n, st, [], env, w)
  {
    hide Apply;
    assert RunKids(n, 0, st, env, w, k) == AllDone(st, []);
  }

  lemma NothingRuns(st: St, env: Env, w: Place, k: nat)
    ensures Run(Nothing, st, env, w, k) == Done(st, [])
    ensures RunScope(Nothing, st, env, w, k) == Done(st, [])
  {
    LeafRuns(Nothing, st, env, w, k);
    NoDeclarations(Nothing);
    hide Run, LeaveScope;
    LeaveNothing(st, st);
  }

  lemma LeaveNothing(st: St, st1: St)
    ensures LeaveScope(st, st1, {}) == st1
  {
    var st2 := LeaveScope(st, st1, {});
    NothingOutside(st.uni, st1.uni);
    forall l | 0 <= l < |st1.vars|
      ensures st2.vars[l] == st1.vars[l]
    {
      if l < |st.vars| {
        NothingOutside(st.vars[l], st1.vars[l]);
      }
    }
    assert st2.vars == st1.vars;
  }

  lemma NothingOutside(a: Memory, b: Memory)
    ensures Outside(a, b, {}) == b
  {
  }

  /** What an if does whose test no lane passes: nothing if it branches around its side,
      and what the side does with no lane on if it does not. */
  lemma GuardedRuns(n: Node, st: St, env: Env, d: nat, k: nat)
    requires n.kind.If? && |n.kids| == 3 && n.kids[2] == Nothing && Declared(n.kids[1]) == {}
    requires IsVariable(n.kids[0]) && !Uniform(n.kids[0]) && NonePass(st, n.kids[0].kind.variable) && Live(st)
    ensures n.kind.branch ==> Run(n, st, env, Plain(d), k) == Done(st, [])
    ensures !n.kind.branch ==>
        var r := Run(n.kids[1], st.(mask := {}), env, Plain(d + 1), k);
        && (r.Fault? ==> Run(n, st, env, Plain(d), k) == Fault)
        && (r.Done? && r.st == st.(mask := {}, uni := r.st.uni, vars := r.st.vars) ==>
              Run(n, st, env, Plain(d), k) == Done(r.st.(mask := st.mask), []))
  {
    var v := n.kids[0].kind.variable;
    SymbolRuns(n.kids[0], st, env, Plain(d), k);
    RunOfIf(n, st, env, Plain(d), k);
    var test := TrueLanes(st, ReadPart(st, v, 0));
    assert st.mask * test == {} && st.mask - test == st.mask;
    hide Run, Uniform, RunSides, TrueLanes, NonePass;
    GuardedSides(n, st, test, env, d, k);
  }

  /** if (v) side */
  function Guarded(branch: bool, v: Variable, side: Node): Node
  {
    Node(If(branch), [Read(v), side, Nothing])
  }

  lemma GuardRuns(v: Variable, side: Node, st: St, r: Result, env: Env, k: nat)
    requires !v.uniform && NonePass(st, v) && Live(st) && Declared(side) == {}
    requires r == Run(side, st.(mask := {}), env, Plain(1), k)
    requires r.Fault? || (r.Done? && r.st == st.(mask := {}, uni := r.st.uni, vars := r.st.vars))
    ensures Run(Guarded(true, v, side), st, env, Plain(0), k) == Done(st, [])
    ensures Run(Guarded(false, v, side), st, env, Plain(0), k) ==
        if r.Fault? then Fault else Done(r.st.(mask := st.mask), [])
  {
    hide Run, NonePass, Live, Declared;
    GuardedRuns(Guarded(true, v, side), st, env, 0, k);
    GuardedRuns(Guarded(false, v, side), st, env, 0, k);
  }

  lemma GuardedSides(n: Node, st: St, test: Mask, env: Env, d: nat, k: nat)
    requires n.kind.If? && |n.kids| == 3 && n.kids[2] == Nothing && Declared(n.kids[1]) == {} && Live(st)
    requires st.mask * test == {} && st.mask - test == st.mask
    ensures n.kind.branch ==> RunSides(n, st, test, env, Plain(d), k) == Done(st, [])
    ensures !n.kind.branch ==>
        var r := Run(n.kids[1], st.(mask := {}), env, Plain(d + 1), k);
        && (r.Fault? ==> RunSides(n, st, test, env, Plain(d), k) == Fault)
        && (r.Done? && r.st == st.(mask := {}, uni := r.st.uni, vars := r.st.vars) ==>
              RunSides(n, st, test, env, Plain(d), k) == Done(r.st.(mask := st.mask), []))
  {
    hide Run, LeaveScope, Declared, RunScope;
    SideRuns(n, st.(mask := {}), env, d, k);
    var r := Run(n.kids[1], st.(mask := {}), env, Plain(d + 1), k);
    NothingRuns(st, env, Plain(d + 1), k);
    if r.Done? {
      NothingRuns(r.st.(mask := st.mask), env, Plain(d + 1), k);
    }
    assert st.mask - st.returned - st.broke - st.continued == st.mask;
  }

  lemma SideRuns(n: Node, st: St, env: Env, d: nat, k: nat)
    requires |n.kids| == 3 && Declared(n.kids[1]) == {}
    ensures
      var r := Run(n.kids[1], st, env, Plain(d + 1), k);
      r.Done? || r.Fault? ==>
        RunScope(n.kids[1], st, env, Plain(d + 1), k) == if r.Done? then Done(r.st, []) else Fault
  {
    hide Run, LeaveScope, Declared;
    var r := Run(n.kids[1], st, env, Plain(d + 1), k);
    if r.Done? {
      LeaveNothing(st, r.st);
    }
  }

  lemma NoDeclarations(n: Node)
    requires !n.kind.Decl? && |n.kids| <= 2 && forall i :: 0 <= i < |n.kids| ==> Declared(n.kids[i]) == {}
    ensures Declared(n) == {}
  {
    hide Declared;
    assert DeclaredFrom(n, |n.kids|) == {};
    assert |n.kids| > 0 ==> DeclaredFrom(n, |n.kids| - 1) == {};
    assert DeclaredFrom(n, 0) == {};
    DeclaresIts(n);
  }

  lemma DeclaresIts(n: Node)
    requires !n.kind.Decl?
    ensures Declared(n) == DeclaredFrom(n, 0)
  {
  }

  // ---------- a structure with a uniform member ----------

  /** A variable of type struct { uniform int a; int c; }, declared there, too. */
  predicate IsPair(v: Variable)
  {
    v == Variable(v.name, false, [true, false], 0, true)
  }

  /** s = t; */
  function Copy(s: Variable, t: Variable): Node
  {
    Node(Assign(None), [Read(s), Read(t)])
  }

  /** if (v) s = t; where no lane passes the guard: branching around the assignment does
      nothing, while predicating it overwrites the uniform member, in every such state. */
  lemma {:induction false} UniformMemberOverwritten(
    v: Variable, s: Variable, t: Variable, st: St, env: Env, k: nat)
    requires IsInt(v) && IsPair(s) && IsPair(t) && NonePass(st, v) && Live(st) && |st.vars| > 0
    ensures Safe(Copy(s, t))
    ensures Run(Guarded(true, v, Copy(s, t)), st, env, Plain(0), k) == Done(st, [])
    ensures Run(Guarded(false, v, Copy(s, t)), st, env, Plain(0), k) ==
        Done(st.(uni := st.uni[Loc(s.name, 0) := Held(st.uni, Loc(t.name, 0))]), [])
  {
    hide Run, NonePass, Live, Declared, Copy, Guarded, Safe;
    CopyAllOff(s, t, st.(mask := {}), env, k);
    GuardRuns(v, Copy(s, t), st, Run(Copy(s, t), st.(mask := {}), env, Plain(1), k), env, k);
  }

  lemma {:induction false} CopyAllOff(s: Variable, t: Variable, st: St, env: Env, k: nat)
    requires IsPair(s) && IsPair(t) && st.mask == {} && |st.vars| > 0
    ensures Safe(Copy(s, t)) && Declared(Copy(s, t)) == {}
    ensures
      var r := Run(Copy(s, t), st, env, Plain(1), k);
      r.Done? && r.st == st.(uni := st.uni[Loc(s.name, 0) := Held(st.uni, Loc(t.name, 0))])
  {
    NoDeclarations(Copy(s, t));
    SymbolRuns(Read(t), st, env, Plain(1), k);
    AssignExact(Copy(s, t), st, env, Plain(1), k);
    hide Run;
    PairStored(st, s, ReadVar(st, t));
  }

  lemma PairStored(st: St, v: Variable, value: Value)
    requires v.parts == [true, false] && st.mask == {}
    ensures WriteParts(st, v, value, 0, false) == st.(uni := st.uni[Loc(v.name, 0) := InLane(Part(value, 0), 0)])
  {
    var st1 := WritePart(st, v, 0, Part(value, 0), false);
    WritePartAllOff(st1, v, 1, Part(value, 1), false);
    assert WriteParts(st1, v, value, 1, false) == st1;
  }

  // ---------- the result of a uniform function ----------

  predicate IsUniformInt(v: Variable)
  {
    v == Variable(v.name, true, [true], 0, true)
  }

  /** return c; */
  function ReturnOf(slot: Variable, c: int): Node
  {
    Node(Return(slot), [Literal(c)])
  }

  lemma {:induction false} ReturnAllOff(slot: Variable, c: int, st: St, env: Env, k: nat)
    requires IsUniformInt(slot) && st.mask == {} && |st.vars| > 0
    ensures Safe(ReturnOf(slot, c)) && Declared(ReturnOf(slot, c)) == {}
    ensures Run(ReturnOf(slot, c), st, env, Plain(1), k) == Done(st.(uni := st.uni[Loc(slot.name, 0) := c]), [])
  {
    NoDeclarations(Literal(c));
    NoDeclarations(ReturnOf(slot, c));
    LiteralRuns(c, st, env, Plain(1), k);
    ReturnExact(ReturnOf(slot, c), st, env, Plain(1), k);
    hide Run;
    OnePart(st, slot, [Spread([c], |st.vars|)], true);
  }

  /** if (v) return c; where no lane passes the guard: the function returns c all the same. */
  lemma {:induction false} UniformResultOverwritten(
    v: Variable, slot: Variable, c: int, st: St, env: Env, k: nat)
    requires IsInt(v) && IsUniformInt(slot) && NonePass(st, v) && Live(st) && |st.vars| > 0
    ensures Safe(ReturnOf(slot, c))
    ensures Run(Guarded(true, v, ReturnOf(slot, c)), st, env, Plain(0), k) == Done(st, [])
    ensures Run(Guarded(false, v, ReturnOf(slot, c)), st, env, Plain(0), k) ==
        Done(st.(uni := st.uni[Loc(slot.name, 0) := c]), [])
  {
    hide Run, NonePass, Live, Declared, ReturnOf, Guarded, Safe;
    ReturnAllOff(slot, c, st.(mask := {}), env, k);
    GuardRuns(v, ReturnOf(slot, c), st, Run(ReturnOf(slot, c), st.(mask := {}), env, Plain(1), k), env, k);
  }

  /** One lane, which is on, with these variables. */
  function OneLane(uni: Memory, vars: Memory): St
  {
    St({0}, {}, {}, {}, uni, [vars], map[])
  }

  /** A state in which this goes wrong: the only lane does not return, and had 3 before. */
  lemma {:induction false} UniformResultIsWrong(v: Variable, slot: Variable, env: Env, k: nat)
    requires IsInt(v) && IsUniformInt(slot)
    ensures
      var st := OneLane(map[Loc(slot.name, 0) := 3], map[Loc(v.name, 0) := 0]);
      var r := Run(Guarded(false, v, ReturnOf(slot, 7)), st, env, Plain(0), k);
      Run(Guarded(true, v, ReturnOf(slot, 7)), st, env, Plain(0), k) == Done(st, []) && r.Done? && r.st != st
  {
    var st := OneLane(map[Loc(slot.name, 0) := 3], map[Loc(v.name, 0) := 0]);
    hide Run;
    UniformResultOverwritten(v, slot, 7, st, env, k);
    assert st.uni[Loc(slot.name, 0)] != st.uni[Loc(slot.name, 0) := 7][Loc(slot.name, 0)];
  }

  // ---------- compound division ----------

  /** x /= y; or x %= y; */
  function Division(f: (int, int) -> int, x: Variable, y: Variable): Node
  {
    Node(Assign(Some(DivMod(f))), [Read(x), Read(y)])
  }

  lemma {:induction false} DivisionAllOff(f: (int, int) -> int, x: Variable, y: Variable, st: St, env: Env, k: nat)
    requires IsInt(x) && IsInt(y) && st.mask == {} && env.stray == 0
    ensures Safe(Division(f, x, y)) && Declared(Division(f, x, y)) == {}
    ensures Run(Division(f, x, y), st, env, Plain(1), k) == Fault
  {
    NoDeclarations(Division(f, x, y));
    CompoundDivisionExact(Division(f, x, y), st, env, Plain(1), k);
    hide Run;
  }

  /** if (y) x /= y; is found safe, but when no lane passes the guard, branching around it
      does nothing while predicating it divides by whatever lies past the last lane. */
  lemma {:induction false} PredicatedDivisionFaults(
    f: (int, int) -> int, x: Variable, y: Variable, st: St, env: Env, k: nat)
    requires IsInt(x) && IsInt(y) && NonePass(st, y) && Live(st) && env.stray == 0
    ensures Safe(Division(f, x, y))
    ensures Run(Guarded(true, y, Division(f, x, y)), st, env, Plain(0), k) == Done(st, [])
    ensures Run(Guarded(false, y, Division(f, x, y)), st, env, Plain(0), k) == Fault
  {
    hide Run, NonePass, Live, Declared, Division, Guarded, Safe;
    DivisionAllOff(f, x, y, st.(mask := {}), env, k);
    GuardRuns(y, Division(f, x, y), st, Fault, env, k);
  }

  // ---------- select ----------

  /** x = c */
  function AssignTo(x: Variable, c: int): Node
  {
    Node(Assign(None), [Read(x), Literal(c)])
  }

  /** v ? (x = c) : 0, where both have been declared as deep as this stands. */
  function SelectAssign(shortCircuit: bool, v: Variable, x: Variable, c: int): Node
  {
    Node(Select(shortCircuit, false), [Read(v), AssignTo(x, c), Literal(0)])
  }

  /** x is c in every lane. */
  function AllSet(st: St, x: Variable, c: int): St
  {
    WritePart(st, x, 0, Spread([c], |st.vars|), true)
  }

  lemma {:induction false} AssignToAllOff(x: Variable, c: int, st: St, env: Env, k: nat)
    requires IsInt(x) && st.mask == {}
    ensures Run(AssignTo(x, c), st, env, Plain(0), k) == Done(AllSet(st, x, c), [Spread([c], |st.vars|)])
  {
    hide Run, Literal, Safe, Spread, WritePart;
    LiteralRuns(c, st, env, Plain(0), k);
    AssignRuns(AssignTo(x, c), st, [Spread([c], |st.vars|)], env, Plain(0), k);
  }

  lemma AssignToIsSafe(x: Variable, c: int)
    requires !x.uniform
    ensures Safe(AssignTo(x, c))
  {
    assert Safe(Literal(c));
    AssignIsSafe(AssignTo(x, c));
  }

  /** When no lane passes the test, a select that skips its first operand changes nothing,
      while one that evaluates it sets x in every lane, those that are on included. */
  lemma {:induction false} SelectWritesEveryLane(
    v: Variable, x: Variable, c: int, st: St, env: Env, k: nat)
    requires IsInt(v) && IsInt(x) && NonePass(st, v)
    ensures Safe(AssignTo(x, c))
    ensures
      var r := Run(SelectAssign(true, v, x, c), st, env, Plain(0), k);
      r.Done? && r.st == st
    ensures
      var r := Run(SelectAssign(false, v, x, c), st, env, Plain(0), k);
      r.Done? && r.st == AllSet(st, x, c) && |r.st.vars| == |st.vars|
      && forall l :: 0 <= l < |st.vars| ==> r.st.vars[l] == st.vars[l][Loc(x.name, 0) := c]
  {
    var test := TrueLanes(st, ReadPart(st, v, 0));
    assert st.mask * test == {};
    hide Run, NonePass, TrueLanes, RunOperands, ReadPart, AssignTo, Safe, AllSet, WritePart;
    AllAreSet(st, x, c);
    AssignToIsSafe(x, c);
    AssignToAllOff(x, c, st.(mask := {}), env, k);
    SelectRuns(SelectAssign(true, v, x, c), st, env, 0, k);
    SelectRuns(SelectAssign(false, v, x, c), st, env, 0, k);
    OperandsRun(SelectAssign(true, v, x, c), x, c, st, test, env, k);
    OperandsRun(SelectAssign(false, v, x, c), x, c, st, test, env, k);
  }

  lemma SelectRuns(n: Node, st: St, env: Env, d: nat, k: nat)
    requires n.kind.Select? && |n.kids| == 3 && IsVariable(n.kids[0]) && !Uniform(n.kids[0])
    requires n.kids[0].kind.variable.parts == [false]
    ensures Run(n, st, env, Plain(d), k) ==
        RunOperands(n, st, TrueLanes(st, ReadPart(st, n.kids[0].kind.variable, 0)), env, d, k)
  {
    SymbolRuns(n.kids[0], st, env, Plain(d), k);
    hide RunOperands, TrueLanes, ReadPart;
    assert Run(n, st, env, Plain(d), k) == RunSelect(n, st, env, Plain(d), k);
  }

  lemma OperandsRun(n: Node, x: Variable, c: int, st: St, test: Mask, env: Env, k: nat)
    requires n.kind.Select? && |n.kids| == 3 && n.kids[1] == AssignTo(x, c) && n.kids[2] == Literal(0)
    requires IsInt(x) && st.mask * test == {} && !n.kind.shortCircuit2
    ensures
      var r := RunOperands(n, st, test, env, 0, k);
      r.Done? && r.st == if n.kind.shortCircuit1 then st else AllSet(st, x, c)
  {
    hide Run, Selected, AssignTo, Literal, Safe, AllSet;
    AssignToAllOff(x, c, st.(mask := {}), env, k);
    AllSetMask(st, x, c, {}, st.mask - test);
    var st1 := if n.kind.shortCircuit1 then st else AllSet(st, x, c);
    LiteralRuns(0, st1.(mask := st.mask - test), env, Plain(0), k);
  }

  lemma AllAreSet(st: St, x: Variable, c: int)
    requires IsInt(x)
    ensures |AllSet(st, x, c).vars| == |st.vars|
    ensures forall l :: 0 <= l < |st.vars| ==> AllSet(st, x, c).vars[l] == st.vars[l][Loc(x.name, 0) := c]
  {
  }

  lemma AllSetMask(st: St, x: Variable, c: int, mask: Mask, mask1: Mask)
    ensures AllSet(st.(mask := mask), x, c).(mask := mask1) == AllSet(st, x, c).(mask := mask1)
    ensures AllSet(st, x, c).(mask := st.mask) == AllSet(st, x, c)
  {
  }

  // ---------- logical operators ----------

  /** v && (x = c), in a varying construct and with variables from outside. */
  function AndAssign(shortCircuit: bool, v: Variable, x: Variable, c: int): Node
  {
    Node(Logical(And, shortCircuit), [Read(v), AssignTo(x, c)])
  }

  /** Evaluated in every lane that is on, this sets x where v is false, too. */
  lemma {:induction false} AndAssigns(
    v: Variable, x: Variable, c: int, st: St, l: Lane, env: Env, k: nat)
    requires IsInt(v) && IsInt(x) && l in st.mask && l < |st.vars|
    requires InLane(ReadPart(st, v, 0), l) == 0 && Held(st.vars[l], Loc(x.name, 0)) != c
    ensures Safe(AssignTo(x, c))
    ensures
      var r := Run(AndAssign(false, v, x, c), st, env, Plain(1), k);
      var r1 := Run(AndAssign(true, v, x, c), st, env, Plain(1), k);
      r.Done? && r1.Done? && r.st != r1.st
  {
    hide Run, ReadPart, InLane, AssignTo, Safe;
    AssignToIsSafe(x, c);
    var a := ReadPart(st, v, 0);
    AndAssignRuns(false, v, x, c, st, a, env, k);
    AndAssignRuns(true, v, x, c, st, a, env, k);
    SecondsDiffer(AndAssign(false, v, x, c), AndAssign(true, v, x, c), x, c, st, a, l, env, k);
  }

  lemma {:induction false} AndAssignRuns(
    shortCircuit: bool, v: Variable, x: Variable, c: int, st: St, a: seq<int>, env: Env, k: nat)
    requires IsInt(v) && a == ReadPart(st, v, 0)
    ensures
      var n := AndAssign(shortCircuit, v, x, c);
      Run(n, st, env, Plain(1), k) ==
        if shortCircuit then RunSecond(n, st, a, env, 1, k) else InEveryLane(n, st, a, env, 1, k)
  {
    hide Run, ReadPart, AssignTo, RunSecond, InEveryLane;
    SymbolRuns(Read(v), st, env, Plain(1), k);
    LogicalRuns(AndAssign(shortCircuit, v, x, c), st, env, 1, k);
  }

  lemma SecondsDiffer(
    n: Node, n1: Node, x: Variable, c: int, st: St, a: seq<int>, l: Lane, env: Env, k: nat)
    requires n.kind.Logical? && n1.kind.Logical? && |n.kids| == |n1.kids| == 2
    requires n.kind.logical == n1.kind.logical == And && n.kids[1] == n1.kids[1] == AssignTo(x, c) && IsInt(x)
    requires l in st.mask && l < |st.vars| && InLane(a, l) == 0 && Held(st.vars[l], Loc(x.name, 0)) != c
    ensures
      var r, r1 := InEveryLane(n, st, a, env, 1, k), RunSecond(n1, st, a, env, 1, k);
      r.Done? && r1.Done? && r.st != r1.st
  {
    assert l !in Undecided(And, st, a) && InLane(Spread([c], |st.vars|), l) == c;
    hide Run, Undecided, InLane, Spread, Literal;
    LiteralRuns(c, st, env, Plain(1), k);
    assert Pure(Literal(c)) by { LiteralIsPure(c); }
    LogicalAssignExact(n1, st, a, env, 1, k);
    hide Pure;
    assert InEveryLane(n, st, a, env, 1, k) == InEveryLane(n1, st, a, env, 1, k);
  }

  lemma LiteralIsPure(c: int)
    ensures Pure(Literal(c))
  {
  }

  // ---------- case labels ----------

  /** v = c; */
  function Set(v: Variable, c: int): Node
  {
    Node(ExprStmt, [AssignTo(v, c)])
  }

  /** case 1: x = a; u = b; */
  function SetBoth(checkMask: bool, x: Variable, a: int, u: Variable, b: int): Node
  {
    Node(Label(Some(1), checkMask), [Set(x, a), Set(u, b)])
  }

  function SwitchTo(v: Variable, body: Node): Node
  {
    Node(Switch, [Read(v), body])
  }

  /** No lane that is on starts at case 1. */
  predicate NoneIsOne(st: St, v: Variable)
  {
    v.parts == [false] && forall l: Lane :: l < |st.vars| && l in st.mask ==> InLane(ReadPart(st, v, 0), l) != 1
  }

  lemma {:induction false} SetBothAllOff(
    checkMask: bool, x: Variable, a: int, u: Variable, b: int, st: St, env: Env, k: nat)
    requires IsInt(x) && IsUniformInt(u) && st.mask == {} && |st.vars| > 0
    ensures !CheckMask(SetBoth(checkMask, x, a, u, b).kids[0], 1)
    ensures Run(SetBoth(checkMask, x, a, u, b), st, env, Place(false, 1, false), k) ==
        Done(st.(uni := st.uni[Loc(u.name, 0) := b]), [])
  {
    hide Run, Safe, Set;
    SetIsSafe(x, a);
    SetChangesNothing(x, a, st, env, k);
    SetStores(u, b, st, env, k);
    TwoStatements(SetBoth(checkMask, x, a, u, b), st, st.(uni := st.uni[Loc(u.name, 0) := b]), env, k);
  }

  lemma {:induction false} SetChangesNothing(x: Variable, c: int, st: St, env: Env, k: nat)
    requires IsInt(x) && st.mask == {}
    ensures Run(Set(x, c), st, env, Place(false, 1, false), k) == Done(st, [])
  {
    SetRuns(Set(x, c), st, env, Place(false, 1, false), k);
    hide Run;
    WritePartAllOff(st, x, 0, Spread([c], |st.vars|), false);
  }

  lemma {:induction false} SetStores(u: Variable, c: int, st: St, env: Env, k: nat)
    requires IsUniformInt(u) && |st.vars| > 0
    ensures Run(Set(u, c), st, env, Place(false, 1, false), k) ==
        Done(st.(uni := st.uni[Loc(u.name, 0) := c]), [])
  {
    SetRuns(Set(u, c), st, env, Place(false, 1, false), k);
    hide Run;
  }

  lemma TwoStatements(n: Node, st: St, st1: St, env: Env, k: nat)
    requires n.kind.Label? && |n.kids| == 2
    requires Run(n.kids[0], st, env, Place(false, 1, false), k) == Done(st, [])
    requires Run(n.kids[1], st, env, Place(false, 1, false), k) == Done(st1, [])
    ensures Run(n, st, env, Place(false, 1, false), k) == Done(st1, [])
  {
    hide Run;
    BothKids(n, st, Done(st, []), Done(st1, []), env, Place(false, 1, false), k);
  }

  lemma SetIsSafe(v: Variable, c: int)
    requires !v.uniform
    ensures Safe(Set(v, c))
  {
    AssignToIsSafe(v, c);
    hide AssignTo;
  }

  /** switch (v) { case 1: x = a; u = b; } where v is 1 in no lane: the check is left out
      for the sake of the first statement, and u becomes b. */
  lemma {:induction false} UniformStoreAtLabel(
    v: Variable, x: Variable, a: int, u: Variable, b: int, st: St, env: Env, k: nat)
    requires IsInt(v) && IsInt(x) && IsUniformInt(u)
    requires NoneIsOne(st, v) && st.mask !! st.returned && |st.vars| > 0
    ensures !CheckMask(SetBoth(false, x, a, u, b).kids[0], 1)
    ensures Run(SwitchTo(v, SetBoth(true, x, a, u, b)), st, env, Plain(0), k) == Done(st, [])
    ensures Run(SwitchTo(v, SetBoth(false, x, a, u, b)), st, env, Plain(0), k) ==
        Done(st.(uni := st.uni[Loc(u.name, 0) := b]), [])
  {
    hide Run, NoneIsOne, SetBoth, CheckMask, SwitchTo;
    var st1 := st.(mask := {}, broke := {});
    SetBothAllOff(false, x, a, u, b, st1, env, k);
    SetBothDeclaresNothing(true, x, a, u, b);
    SetBothDeclaresNothing(false, x, a, u, b);
    SwitchRuns(v, SetBoth(true, x, a, u, b), st, st, env, k);
    SwitchRuns(v, SetBoth(false, x, a, u, b), st, st.(uni := st.uni[Loc(u.name, 0) := b]), env, k);
  }

  lemma SetBothDeclaresNothing(checkMask: bool, x: Variable, a: int, u: Variable, b: int)
    ensures
      var body := SetBoth(checkMask, x, a, u, b);
      body.kind == Label(Some(1), checkMask) && Declared(body) == {}
  {
    SetDeclaresNothing(x, a);
    SetDeclaresNothing(u, b);
    hide Set, Declared;
    NoDeclarations(SetBoth(checkMask, x, a, u, b));
  }

  lemma SetDeclaresNothing(v: Variable, c: int)
    ensures Declared(Set(v, c)) == {}
  {
    hide Declared;
    NoDeclarations(Read(v));
    NoDeclarations(Literal(c));
    NoDeclarations(AssignTo(v, c));
    NoDeclarations(Set(v, c));
  }

  /** A switch with one label, at which no lane starts. */
  lemma SwitchRuns(v: Variable, body: Node, st: St, st1: St, env: Env, k: nat)
    requires body.kind.Label? && body.kind.caseValue == Some(1) && Declared(body) == {}
    requires !v.uniform && v.parts == [false] && NoneIsOne(st, v) && st.mask !! st.returned
    requires st1 == st.(uni := st1.uni)
    requires body.kind.checkMask ==> st1 == st
    requires !body.kind.checkMask ==>
        Run(body, st.(mask := {}, broke := {}), env, Place(false, 1, false), k)
        == Done(st1.(mask := {}, broke := {}), [])
    ensures Run(SwitchTo(v, body), st, env, Plain(0), k) == Done(st1, [])
  {
    hide Run, RunLabels, ReadPart, Starting, Declared, LeaveScope, NoneIsOne, Locals;
    var n, c := SwitchTo(v, body), ReadPart(st, v, 0);
    SymbolRuns(Read(v), st, env, Plain(0), k);
    NoneStarts(v, body, st);
    NoLocals(n);
    OneLabelRuns(n, st, st1, c, env, k);
    LeaveNothing(st, st1);
    SwitchIsRun(n, st, env, k);
    assert st.mask - st.returned == st.mask;
  }

  lemma NoLocals(n: Node)
    requires n.kind.Switch? && |n.kids| == 2 && Declared(n.kids[1]) == {}
    ensures Locals(n) == {}
  {
    hide Declared;
    assert DeclaredFrom(n, 2) == {};
  }

  lemma NoneStarts(v: Variable, body: Node, st: St)
    requires body.kind.Label? && body.kind.caseValue == Some(1) && NoneIsOne(st, v)
    ensures Starting(SwitchTo(v, body), 1, st.mask, ReadPart(st, v, 0)) == {}
  {
    hide ReadPart;
    assert forall l: Lane :: l >= |st.vars| ==> InLane(ReadPart(st, v, 0), l) == 0 by { ReadWidth(st, v); }
  }

  lemma ReadWidth(st: St, v: Variable)
    requires v.parts == [false]
    ensures |ReadPart(st, v, 0)| == |st.vars|
  {
  }

  lemma SwitchIsRun(n: Node, st: St, env: Env, k: nat)
    requires n.kind.Switch? && n.kids != []
    ensures Run(n, st, env, Plain(0), k) == RunSwitch(n, st, env, Plain(0), k)
  {
    hide RunSwitch;
  }

  lemma OneLabelRuns(n: Node, st: St, st1: St, c: seq<int>, env: Env, k: nat)
    requires n.kind.Switch? && |n.kids| == 2 && !Uniform(n.kids[0]) && n.kids[1].kind.Label?
    requires Starting(n, 1, st.mask, c) == {} && (n.kids[1].kind.checkMask ==> st1 == st)
    requires !n.kids[1].kind.checkMask ==>
        Run(n.kids[1], st.(mask := {}, broke := {}), env, Place(false, 1, false), k)
        == Done(st1.(mask := {}, broke := {}), [])
    ensures RunLabels(n, 1, st.(mask := {}, broke := {}), st.mask, c, true, env, 0, k)
        == Done(st1.(mask := {}, broke := {}), [])
  {
    hide Run, Uniform, Starting, Matches;
    var st0 := st.(mask := {}, broke := {});
    assert st0.(mask := {} + {}) == st0;
    assert Labels(n, 0) == Place(false, 1, false);
    assert RunLabels(n, 2, st1.(mask := {}, broke := {}), st.mask, c, true, env, 0, k)
        == Done(st1.(mask := {}, broke := {}), []);
  }

  // ---------- uniform loops ----------

  /** Has c a value other than zero in every lane that is on? */
  predicate TrueWhereOn(st: St, c: seq<int>)
  {
    forall l: Lane :: l < |st.vars| && l in st.mask ==> InLane(c, l) != 0
  }

  /** The library function all(), which is declared safe. */
  function AllOf(st: St, args: seq<Value>): Result
  {
    Done(st, [Spread([if TrueWhereOn(st, Scalar(args, 0)) then 1 else 0], |st.vars|)])
  }

  function WithAll(env: Env): Env
  {
    env.(functions := map["all" := Callee(true, AllOf)])
  }

  lemma AllIsSafe(env: Env)
    requires env == WithAll(env)
    ensures EnvOK(env)
  {
  }

  /** A good expression or statement without loops, jumps and declarations that changes
      nothing at depth d. */
  ghost predicate Idle(n: Node, env: Env, d: nat)
  {
    Good(n, env) && Header(n) && !HasVaryingBreakOrContinue(n, false) && Changes(n, d) == {}
  }

  lemma LeafIsIdle(n: Node, env: Env, d: nat)
    requires n.kids == [] && (n.kind.Symbol? || n.kind.Const? || n.kind.Null?) && EnvOK(env)
    ensures Idle(n, env, d)
  {
    NoDeclarations(n);
    KidsChangeNothing(n, 0, d);
    ChangesOf(n, d);
    hide Changes, Declared, EnvOK;
  }

  /** What a node needs besides idle children. */
  ghost predicate IdleKind(n: Node, env: Env, d: nat)
  {
    && CheckAllOffSafety(n) == (true, true) && Own(n, d) == {} && EnvOK(env)
    && ((n.kind.Unary? && |n.kids| == 1 && LValue(n.kids[0]))
        || (n.kind.Binary? && |n.kids| == 2)
        || (n.kind.Return? && |n.kids| == 1)
        || (n.kind.Call? && n.kind.func.Some? && |n.kids| == 1
            && n.kind.func.value in env.functions && env.functions[n.kind.func.value].safe))
  }

  lemma ParentIsIdle(n: Node, env: Env, d: nat)
    requires IdleKind(n, env, d) && forall i :: 0 <= i < |n.kids| ==> Idle(n.kids[i], env, d)
    ensures Idle(n, env, d)
  {
    ParentIsGood(n, env, d);
    ParentIsHeader(n, env, d);
    ParentChangesNothing(n, env, d);
  }

  lemma ParentIsGood(n: Node, env: Env, d: nat)
    requires IdleKind(n, env, d) && forall i :: 0 <= i < |n.kids| ==> Idle(n.kids[i], env, d)
    ensures Good(n, env)
  {
    hide CheckAllOffSafety, EnvOK, HasUniformLoop, HasVaryingBreakOrContinue, Declared, Changes, Own;
  }

  lemma ParentIsHeader(n: Node, env: Env, d: nat)
    requires IdleKind(n, env, d) && forall i :: 0 <= i < |n.kids| ==> Idle(n.kids[i], env, d)
    ensures Header(n) && !HasVaryingBreakOrContinue(n, false)
  {
    hide EnvOK, Safe, Tame, Formed, Changes, Own;
    NoDeclarations(n);
    hide Declared;
  }

  lemma ParentChangesNothing(n: Node, env: Env, d: nat)
    requires IdleKind(n, env, d) && forall i :: 0 <= i < |n.kids| ==> Idle(n.kids[i], env, d)
    ensures Changes(n, d) == {}
  {
    hide Good, Header, HasVaryingBreakOrContinue, EnvOK, CheckAllOffSafety, Own, Changes;
    KidsChangeNothing(n, 0, d);
    ChangesOf(n, d);
  }

  lemma ChangesOf(n: Node, d: nat)
    ensures Changes(n, d) <= Own(n, d) + KidsChange(n, 0, d)
  {
    hide Own, KidsChange;
  }

  lemma {:induction false} KidsChangeNothing(n: Node, from: nat, d: nat)
    requires forall i :: from <= i < |n.kids| ==> Changes(n.kids[i], KidDepth(n, i, d)) == {}
    ensures KidsChange(n, from, d) == {}
    decreases |n.kids| - from
  {
    hide Changes, KidDepth, Declared;
    if from < |n.kids| {
      KidsChangeNothing(n, from + 1, d);
    }
  }

  /** A uniform for loop with idle parts. */
  lemma LoopOfIdle(n: Node, env: Env, d: nat)
    requires n.kind.For? && |n.kids| == 4 && UniformLoop(n.kids[1], n.kids[3]) && EnvOK(env)
    requires forall i :: 0 <= i < 4 ==> Idle(n.kids[i], env, d)
    ensures Good(n, env) && ForRepeats(n, d) && Changes(n, d) == {}
  {
    LoopIsGood(n, env, d);
    hide Good, Header, HasVaryingBreakOrContinue, EnvOK, UniformLoop, Own, Changes;
    KidsChangeNothing(n, 0, d);
    KidsChangeNothing(n, 1, d);
    KidChangesIn(n, 1, 1, d);
    ChangesOf(n, d);
  }

  lemma LoopIsGood(n: Node, env: Env, d: nat)
    requires n.kind.For? && |n.kids| == 4 && EnvOK(env)
    requires forall i :: 0 <= i < 4 ==> Idle(n.kids[i], env, d)
    ensures Good(n, env)
  {
    hide EnvOK, HasUniformLoop, HasVaryingBreakOrContinue, Declared, Changes;
    assert CheckAllOffSafety(n) == (true, true);
  }

  function Below(a: int, b: int): int
  {
    if a < b then 1 else 0
  }

  /** all(v < 1), for a v that was declared outside of a varying construct */
  function CountTest(v: Variable): Node
  {
    Node(Call(Some("all"), true, true), [Node(Binary(Op(Below)), [Read(v), Literal(1)])])
  }

  /** ++v */
  function Step(v: Variable): Node
  {
    Node(Unary(IncDec(1)), [Read(v)])
  }

  /** while (all(v < 1)) ++v; */
  function CountLoop(v: Variable): Node
  {
    Node(For, [Nothing, CountTest(v), Nothing, Step(v)])
  }

  lemma StepIsIdle(v: Variable, env: Env)
    requires IsInt(v) && EnvOK(env)
    ensures Idle(Step(v), env, 1) && !HasVaryingBreakOrContinue(Step(v), false)
  {
    LeafIsIdle(Read(v), env, 1);
    VaryingStepIsChecked(Step(v));
    hide Idle, EnvOK, CheckAllOffSafety, HasVaryingBreakOrContinue;
    ParentIsIdle(Step(v), env, 1);
    IdleIsSafe(Step(v), env, 1);
  }

  lemma VaryingStepIsChecked(n: Node)
    requires n.kind.Unary? && |n.kids| == 1 && !Uniform(n.kids[0])
    ensures CheckAllOffSafety(n) == (true, true)
  {
  }

  lemma IdleIsSafe(n: Node, env: Env, d: nat)
    requires Idle(n, env, d)
    ensures Safe(n) && !HasVaryingBreakOrContinue(n, false)
  {
  }

  lemma GoodIsSafe(n: Node, env: Env)
    requires Good(n, env)
    ensures Safe(n) && EnvOK(env)
  {
  }

  lemma CountTestIsIdle(v: Variable, env: Env)
    requires IsInt(v) && env == WithAll(env) && EnvOK(env)
    ensures Idle(CountTest(v), env, 1) && Uniform(CountTest(v))
  {
    hide Idle, EnvOK;
    LeafIsIdle(Read(v), env, 1);
    LeafIsIdle(Literal(1), env, 1);
    ParentIsIdle(CountTest(v).kids[0], env, 1);
    ParentIsIdle(CountTest(v), env, 1);
  }

  lemma CountLoopIsGood(v: Variable, env: Env)
    requires IsInt(v) && env == WithAll(env)
    ensures Good(CountLoop(v), env) && ForRepeats(CountLoop(v), 1) && Changes(CountLoop(v), 1) == {}
    ensures UniformLoop(CountTest(v), Step(v)) && Safe(CountLoop(v)) && EnvOK(env)
  {
    hide CountTest, Step, EnvOK, ForRepeats, Changes, Good, Idle, Uniform, HasVaryingBreakOrContinue, Safe;
    AllIsSafe(env);
    CountTestIsIdle(v, env);
    StepIsIdle(v, env);
    LeafIsIdle(Nothing, env, 1);
    LoopOfIdle(CountLoop(v), env, 1);
    GoodIsSafe(CountLoop(v), env);
  }

  function BelowOne(v: Variable, st: St): seq<int>
    requires v.parts == [false]
  {
    seq(|st.vars|, l requires 0 <= l < |st.vars| => if InLane(ReadPart(st, v, 0), l) < 1 then 1 else 0)
  }

  lemma {:induction false} CountTestRuns(v: Variable, st: St, env: Env, k: nat)
    requires IsInt(v) && env == WithAll(env)
    ensures Run(CountTest(v), st, env, Plain(1), k) == AllOf(st, [[BelowOne(v, st)]])
  {
    hide Run, BelowOne, AllOf;
    LessRuns(v, st, env, k);
    OneKidRuns(CountTest(v), st, Done(st, [BelowOne(v, st)]), env, Plain(1), k);
  }

  lemma {:induction false} LessRuns(v: Variable, st: St, env: Env, k: nat)
    requires IsInt(v)
    ensures Run(CountTest(v).kids[0], st, env, Plain(1), k) == Done(st, [BelowOne(v, st)])
  {
    hide Run, ReadPart, Literal, Spread;
    var less, ones := CountTest(v).kids[0], Spread([1], |st.vars|);
    SymbolRuns(Read(v), st, env, Plain(1), k);
    LiteralRuns(1, st, env, Plain(1), k);
    BothKids(less, st, Done(st, ReadVar(st, v)), Done(st, [ones]), env, Plain(1), k);
    LessIsBelowOne(v, less, ReadPart(st, v, 0), st, env);
  }

  lemma LessIsBelowOne(v: Variable, n: Node, c: seq<int>, st: St, env: Env)
    requires IsInt(v) && c == ReadPart(st, v, 0)
    ensures Operate(n, Op(Below), c, Spread([1], |st.vars|), st, env) == Done(st, [BelowOne(v, st)])
  {
    var ones := Spread([1], |st.vars|);
    assert forall l: nat :: l < |st.vars| ==> InLane(ones, l) == 1;
    var r := Operate(n, Op(Below), c, ones, st, env).value[0];
    assert forall l: nat :: l < |st.vars| ==> r[l] == Below(InLane(c, l), 1);
    assert r == BelowOne(v, st);
  }

  lemma {:induction false} StepRuns(v: Variable, st: St, env: Env, w: Place, k: nat)
    requires IsInt(v) && w.depth == 1
    ensures
      var c := ReadPart(st, v, 0);
      Run(Step(v), st, env, w, k) == Done(WritePart(st, v, 0, Stepped(st, c, 1), false), [c])
  {
    SymbolRuns(Read(v), st, env, w, k);
    hide Run, ReadPart, Stepped, WritePart;
    OneKidRuns(Step(v), st, Done(st, ReadVar(st, v)), env, w, k);
    OnePart(st, v, [Stepped(st, ReadPart(st, v, 0), 1)], false);
  }

  lemma OnePart(st: St, v: Variable, value: Value, everywhere: bool)
    requires |v.parts| == 1
    ensures WriteParts(st, v, value, 0, everywhere) == WritePart(st, v, 0, Part(value, 0), everywhere)
  {
    hide WritePart;
    var st1 := WritePart(st, v, 0, Part(value, 0), everywhere);
    assert WriteParts(st1, v, value, 1, everywhere) == st1;
  }

  /** With no lane on, all() is true, and the loop never ends. */
  lemma {:induction false} CountLoopRunsOn(v: Variable, st: St, env: Env, k: nat)
    requires IsInt(v) && env == WithAll(env) && st.mask == {} && |st.vars| > 0
    ensures Safe(CountLoop(v)) && Run(CountLoop(v), st, env, Plain(1), k) == Unfinished
  {
    hide Run, Good, Safe, EnvOK, ForRepeats, Changes, CountTest, Step, UniformLoop, TestEnds, BreaksOut;
    CountLoopIsGood(v, env);
    NothingRuns(st, env, Plain(1), k);
    ForEndsIff(CountLoop(v), st, env, Plain(1), k);
    CountDepth(v);
    CountGoesOn(v, EnterLoop(st), env, k);
  }

  lemma CountDepth(v: Variable)
    requires UniformLoop(CountTest(v), Step(v))
    ensures KidDepth(CountLoop(v), 0, 1) == 1
  {
    hide UniformLoop, CountTest, Step;
  }

  lemma {:induction false} CountGoesOn(v: Variable, st: St, env: Env, k: nat)
    requires IsInt(v) && env == WithAll(env) && st.mask == {} && |st.vars| > 0
    requires UniformLoop(CountTest(v), Step(v))
    ensures !TestEnds(CountTest(v), Step(v), st, env, 1, k)
    ensures !BreaksOut(CountLoop(v), 3, st, env, 1, k)
  {
    hide Run, UniformLoop, Step, BelowOne, WritePart, ReadPart, LeaveScope, Declared;
    CountTestRuns(v, st, env, k);
    CountDepth(v);
    StepRuns(v, st, env, Body(CountLoop(v), 1), k);
  }

  function Counted(v: Variable, i: int): St
  {
    OneLane(map[], map[Loc(v.name, 0) := i])
  }

  /** With a lane on it ends: here after one iteration. */
  lemma {:induction false} CountLoopEnds(v: Variable, env: Env)
    requires IsInt(v) && env == WithAll(env)
    ensures Run(CountLoop(v), Counted(v, 0), env, Plain(1), 1) == Done(Counted(v, 1), [])
  {
    hide Run, RunFor, LeaveScope, CountTest, Step, UniformLoop, Counted, Declared;
    CountLoopIsGood(v, env);
    NothingRuns(Counted(v, 0), env, Plain(1), 1);
    CountDepth(v);
    CountLoopRuns(v, env);
    assert Locals(CountLoop(v)) == {} by { NoDeclarations(Nothing); }
    CountedStays(v, 0);
    CountedVars(v);
    WholeLoopRuns(CountLoop(v), Counted(v, 0), Counted(v, 1), env);
  }

  lemma CountedVars(v: Variable)
    ensures Counted(v, 1) == Counted(v, 0).(vars := Counted(v, 1).vars)
  {
  }

  lemma WholeLoopRuns(n: Node, st: St, st1: St, env: Env)
    requires n.kind == For && |n.kids| == 4 && KidDepth(n, 0, 1) == 1 && Locals(n) == {}
    requires Run(n.kids[0], st, env, Plain(1), 1) == Done(st, []) && EnterLoop(st) == st
    requires RunFor(n, st, env, 1, 1, 1) == Done(st1, []) && st1 == st.(vars := st1.vars) && st.mask !! st.returned
    ensures Run(n, st, env, Plain(1), 1) == Done(st1, [])
  {
    hide RunFor, LeaveScope, KidDepth, Locals;
    LeaveNothing(st, st1);
    assert st.mask - st.returned == st.mask;
  }

  lemma {:induction false} CountLoopRuns(v: Variable, env: Env)
    requires IsInt(v) && env == WithAll(env) && UniformLoop(CountTest(v), Step(v))
    ensures RunFor(CountLoop(v), Counted(v, 0), env, 1, 1, 1) == Done(Counted(v, 1), [])
  {
    hide Run, RunScope, UniformLoop, CountTest, Step, Counted;
    CountIteration(v, env);
    CountTestOn(v, 0, env);
    CountDepth(v);
    NothingRuns(Counted(v, 1), env, Plain(1), 1);
    CountLoopStops(v, env);
    assert NextIteration(Counted(v, 1)) == Counted(v, 1) by { CountedStays(v, 1); }
  }

  lemma CountedStays(v: Variable, i: int)
    ensures NextIteration(Counted(v, i)) == EnterLoop(Counted(v, i)) == Counted(v, i)
    ensures Counted(v, i).mask !! Counted(v, i).returned
  {
    assert {0} + {} == {0};
  }

  lemma {:induction false} CountLoopStops(v: Variable, env: Env)
    requires IsInt(v) && env == WithAll(env) && UniformLoop(CountTest(v), Step(v))
    ensures RunFor(CountLoop(v), Counted(v, 1), env, 1, 0, 1) == Done(Counted(v, 1), [])
  {
    hide Run, RunScope, UniformLoop, CountTest, Step, Counted;
    CountTestOn(v, 1, env);
    CountDepth(v);
  }

  lemma {:induction false} CountTestOn(v: Variable, i: int, env: Env)
    requires IsInt(v) && env == WithAll(env)
    ensures Run(CountTest(v), Counted(v, i), env, Plain(1), 1) == Done(Counted(v, i), [[if i < 1 then 1 else 0]])
    ensures CountTest(v).kind != Null
  {
    hide Run;
    CountTestRuns(v, Counted(v, i), env, 1);
    assert BelowOne(v, Counted(v, i)) == [if i < 1 then 1 else 0];
    assert i >= 1 ==> 0 in Counted(v, i).mask && InLane(BelowOne(v, Counted(v, i)), 0) == 0;
    assert Spread([if i < 1 then 1 else 0], 1) == [if i < 1 then 1 else 0];
  }

  lemma {:induction false} CountIteration(v: Variable, env: Env)
    requires IsInt(v) && UniformLoop(CountTest(v), Step(v))
    ensures RunScope(Step(v), Counted(v, 0), env, Body(CountLoop(v), 1), 1) == Done(Counted(v, 1), [])
  {
    hide Run, UniformLoop, LeaveScope;
    CountDepth(v);
    StepRuns(v, Counted(v, 0), env, Body(CountLoop(v), 1), 1);
    assert map[Loc(v.name, 0) := 0][Loc(v.name, 0) := 1] == map[Loc(v.name, 0) := 1];
    CountedUp(v);
    NoDeclarations(Read(v));
    NoDeclarations(Step(v));
    LeaveNothing(Counted(v, 0), Counted(v, 1));
  }

  lemma CountedUp(v: Variable)
    requires IsInt(v)
    ensures
      var st := Counted(v, 0);
      WritePart(st, v, 0, Stepped(st, ReadPart(st, v, 0), 1), false) == Counted(v, 1)
  {
    var st := Counted(v, 0);
    assert map[Loc(v.name, 0) := 0][Loc(v.name, 0) := 1] == map[Loc(v.name, 0) := 1];
    assert WritePart(st, v, 0, Stepped(st, ReadPart(st, v, 0), 1), false).vars == Counted(v, 1).vars;
  }

  /** while (true) return c; with a varying result */
  function ReturnLoop(slot: Variable, c: int): Node
  {
    Node(For, [Nothing, Nothing, Nothing, ReturnOf(slot, c)])
  }

  /** A uniform loop that all lanes inside have left by returning runs on, as long as
      another lane of the function waits outside, so that the return is no exit. */
  lemma {:induction false} ReturnLoopRunsOn(slot: Variable, c: int, st: St, env: Env, d: nat, k: nat)
    requires IsInt(slot) && EnvOK(env) && exists l: Lane :: l < |st.vars| && l !in st.mask && l !in st.returned
    ensures Safe(ReturnLoop(slot, c)) && Run(ReturnLoop(slot, c), st, env, Plain(d), k) == Unfinished
  {
    hide Run, RunFor, Good, Safe, EnvOK, UniformLoop, LeaveScope, ReturnOf, Locals, ForRepeats, Changes;
    ReturnLoopIsGood(slot, c, env, d);
    NothingRuns(st, env, Plain(d), k);
    ReturnLoopFromHead(slot, c, EnterLoop(st), env, d, k, k);
    LoopWithoutInit(ReturnLoop(slot, c), st, env, d, k);
  }

  lemma LoopWithoutInit(n: Node, st: St, env: Env, d: nat, k: nat)
    requires n.kind == For && |n.kids| == 4 && KidDepth(n, 0, d) == d
    ensures Run(n.kids[0], st, env, Plain(d), k) == Done(st, []) ==>
        Run(n, st, env, Plain(d), k)
        == Leave(st, FinishLoop(st, RunFor(n, EnterLoop(st), env, d, k, k)), Locals(n))
  {
    hide RunFor, LeaveScope, Declared, KidDepth;
  }

  lemma ReturnLoopIsGood(slot: Variable, c: int, env: Env, d: nat)
    requires IsInt(slot) && EnvOK(env)
    ensures
      var n := ReturnLoop(slot, c);
      && Good(n, env) && ForRepeats(n, d) && Changes(n, d) == {} && Safe(n) && KidDepth(n, 0, d) == d
      && UniformLoop(Nothing, ReturnOf(slot, c))
  {
    hide Good, Idle, EnvOK, ForRepeats, Changes, ReturnOf, Uniform, HasVaryingBreakOrContinue, Safe;
    LeafIsIdle(Nothing, env, d);
    ReturnIsIdle(slot, c, env, d);
    LoopOfIdle(ReturnLoop(slot, c), env, d);
    GoodIsSafe(ReturnLoop(slot, c), env);
  }

  lemma ReturnIsIdle(slot: Variable, c: int, env: Env, d: nat)
    requires IsInt(slot) && EnvOK(env)
    ensures Idle(ReturnOf(slot, c), env, d) && !HasVaryingBreakOrContinue(ReturnOf(slot, c), false)
  {
    hide Idle, EnvOK, HasVaryingBreakOrContinue;
    LeafIsIdle(Literal(c), env, d);
    ParentIsIdle(ReturnOf(slot, c), env, d);
    IdleIsSafe(ReturnOf(slot, c), env, d);
  }

  lemma {:induction false} ReturnLoopFromHead(slot: Variable, c: int, st: St, env: Env, d: nat, count: nat, k: nat)
    requires IsInt(slot) && EnvOK(env) && st.broke == {} && st.continued == {}
    ensures RunFor(ReturnLoop(slot, c), st, env, d, count, k) == Unfinished
    decreases count
  {
    hide Run, RunFor, RunScope, UniformLoop, Good, EnvOK, ReturnOf, KidDepth, ForRepeats, Changes, Safe;
    ReturnLoopIsGood(slot, c, env, d);
    NothingRuns(st, env, Plain(d), k);
    if count == 0 {
      EndlessLoop(ReturnLoop(slot, c), st, st, env, d, 0, k);
    } else {
      ReturnBodyRuns(slot, c, st, env, Body(ReturnLoop(slot, c), d), k);
      var st1 := RunScope(ReturnOf(slot, c), st, env, Body(ReturnLoop(slot, c), d), k).st;
      assert NextIteration(st1) == st1;
      NothingRuns(st1, env, Plain(d), k);
      EndlessLoop(ReturnLoop(slot, c), st, st1, env, d, count, k);
      ReturnLoopFromHead(slot, c, st1, env, d, count - 1, k);
    }
  }

  /** A loop without test and step that starts an iteration in st, and the next in st1. */
  lemma EndlessLoop(n: Node, st: St, st1: St, env: Env, d: nat, count: nat, k: nat)
    requires n.kind == For && |n.kids| == 4 && n.kids[1] == n.kids[2] == Nothing
    requires UniformLoop(Nothing, n.kids[3]) && KidDepth(n, 0, d) == d
    requires Run(Nothing, st, env, Plain(d), k) == Done(st, []) && Run(Nothing, st1, env, Plain(d), k) == Done(st1, [])
    requires count > 0 ==> RunScope(n.kids[3], st, env, Body(n, d), k) == Done(st1, []) && NextIteration(st1) == st1
    ensures RunFor(n, st, env, d, count, k) == if count == 0 then Unfinished else RunFor(n, st1, env, d, count - 1, k)
  {
    hide Run, RunScope, UniformLoop, NextIteration, KidDepth, Body;
  }

  lemma {:induction false} ReturnBodyRuns(slot: Variable, c: int, st: St, env: Env, w: Place, k: nat)
    ensures
      var r := RunScope(ReturnOf(slot, c), st, env, w, k);
      r.Done? && r.value == [] && r.st.mask == {} && r.st.broke == st.broke && r.st.continued == st.continued
  {
    hide Run, LeaveScope, Declared, Literal;
    LiteralRuns(c, st, env, w, k);
    OneKidRuns(ReturnOf(slot, c), st, Done(st, [Spread([c], |st.vars|)]), env, w, k);
    ReturnIsDone(ReturnOf(slot, c), st, [[Spread([c], |st.vars|)]], env, w);
    ScopeOf(ReturnOf(slot, c), st, Run(ReturnOf(slot, c), st, env, w, k).st, env, w, k);
  }

  lemma ReturnIsDone(n: Node, st: St, values: seq<Value>, env: Env, w: Place)
    requires n.kind.Return?
    ensures
      var r := Apply(n, st, values, env, w);
      r == Done(r.st, []) && r.st.mask == {} && r.st.broke == st.broke && r.st.continued == st.continued
  {
    hide WriteParts;
  }

  lemma ScopeOf(n: Node, st: St, st1: St, env: Env, w: Place, k: nat)
    requires Run(n, st, env, w, k) == Done(st1, [])
    ensures
      var r := RunScope(n, st, env, w, k);
      r == Done(r.st, []) && r.st == st1.(uni := r.st.uni, vars := r.st.vars)
  {
    hide Run, Declared, Outside;
  }
}
