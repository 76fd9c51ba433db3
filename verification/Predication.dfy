/** What the analysis is asked for: running code although no lane is on instead of
    branching around it, in an if, a select, a logical operator and at a case label.
    And, store by store, exactly when the difference shows. */
module Predication {
  import opened MaskContext
  import opened AllOffSafety
  import opened AllOffRun
  import opened AllOffSoundness

  // ---------- if ----------

  /** By its text, code at depth d changes no variable but its own with no lane on. */
  predicate Closed(n: Node, d: nat)
  {
    Changes(n, d) <= Declared(n)
  }

  lemma {:induction false} ClosedSide(side: Node, st: St, env: Env, w: Place, k: nat)
    requires Good(side, env) && st.mask == {} && !w.direct && Closed(side, w.depth)
    ensures
      var r := RunScope(side, st, env, w, k);
      r == Done(st, []) || (r.Unfinished? && HasUniformLoop(side))
  {
    hide Good, RunScope, Changes, Declared, HasUniformLoop, Agree;
    ScopeAllOff(side, st, env, w, k);
    var r := RunScope(side, st, env, w, k);
    if r.Done? {
      assert Changes(side, w.depth) - Declared(side) == {};
      AgreeNone(st, r.st);
    }
  }

  /** Branched around or not, the side does the same, or it does not end. */
  ghost predicate SameSide(side: Node, st: St, env: Env, w: Place, k: nat)
  {
    RunSide(side, st, false, env, w, k) == RunSide(side, st, true, env, w, k)
    || (RunSide(side, st, false, env, w, k).Unfinished? && HasUniformLoop(side))
  }

  lemma SidePredicated(side: Node, st: St, env: Env, w: Place, k: nat)
    requires Good(side, env) && !w.direct && Closed(side, w.depth)
    ensures SameSide(side, st, env, w, k)
  {
    hide Good, RunScope, Closed, HasUniformLoop;
    if st.mask == {} {
      ClosedSide(side, st, env, w, k);
    }
  }

  /** An if whose sides are safe may be turned into straight-line code: for every mask,
      running both sides predicated gives exactly what branching around them gives, or
      does not end, because of a uniform loop in a side in which no lane is on. */
  lemma {:induction false} PredicationEqualsBranching(n: Node, st: St, env: Env, w: Place, k: nat)
    requires n.kind == If(true) && |n.kids| == 3
    requires Good(n.kids[1], env) && Closed(n.kids[1], w.depth + 1)
    requires Good(n.kids[2], env) && Closed(n.kids[2], w.depth + 1)
    ensures
      var predicated := Run(n.(kind := If(false)), st, env, w, k);
      predicated == Run(n, st, env, w, k)
      || (predicated.Unfinished? && (HasUniformLoop(n.kids[1]) || HasUniformLoop(n.kids[2])))
  {
    var p := n.(kind := If(false));
    hide Good, Closed, RunSide, HasUniformLoop;
    RunOfIf(n, st, env, w, k);
    RunOfIf(p, st, env, w, k);
    var t := Run(n.kids[0], st, env, Plain(w.depth), k);
    if t.Done? && !Uniform(n.kids[0]) {
      SidesPredicated(n, t.st, TrueLanes(t.st, Part(t.value, 0)), env, w, k);
    }
    hide Run, RunSides, RunScope;
  }

  lemma RunOfIf(n: Node, st: St, env: Env, w: Place, k: nat)
    requires n.kind.If? && |n.kids| == 3
    ensures Run(n, st, env, w, k) == RunIf(n, st, env, w, k)
  {
    hide RunIf;
  }

  lemma {:induction false} SidesPredicated(n: Node, st: St, test: Mask, env: Env, w: Place, k: nat)
    requires n.kind == If(true) && |n.kids| == 3
    requires Good(n.kids[1], env) && Closed(n.kids[1], w.depth + 1)
    requires Good(n.kids[2], env) && Closed(n.kids[2], w.depth + 1)
    ensures
      var predicated := RunSides(n.(kind := If(false)), st, test, env, w, k);
      predicated == RunSides(n, st, test, env, w, k)
      || (predicated.Unfinished? && (HasUniformLoop(n.kids[1]) || HasUniformLoop(n.kids[2])))
  {
    hide Good, Closed, RunSide, HasUniformLoop;
    var w1 := Place(false, w.depth + 1, w.canContinue);
    SidePredicated(n.kids[1], st.(mask := st.mask * test), env, w1, k);
    var r := RunSide(n.kids[1], st.(mask := st.mask * test), true, env, w1, k);
    if r.Done? {
      SidePredicated(n.kids[2], r.st.(mask := st.mask - test), env, w1, k);
    }
  }

  /** What holds of a side by where its variables stand: those that it assigns and does
      not declare were declared further out, and none of them has uniform parts; and it
      returns nothing uniform. */
  predicate StoresOutward(n: Node, locals: set<string>, d: nat)
  {
    && (n.kind.Decl? ==> n.kind.declared.name in locals)
    && (n.kind.Return? ==> !n.kind.slot.uniform && !HasUniformPart(n.kind.slot))
    && ((n.kind.Assign? || n.kind.Unary?) && n.kids != [] && LValue(n.kids[0]) ==>
          Base(n.kids[0]).name in locals
          || (Base(n.kids[0]).depth <= d && !HasUniformPart(Base(n.kids[0]))))
    && forall i :: 0 <= i < |n.kids| ==> StoresOutward(n.kids[i], locals, d)
  }

  /** Stores to variables that are declared outside of a varying if are masked in it. */
  lemma {:induction false} OuterStoresAreMasked(n: Node, locals: set<string>, d: nat, d1: nat)
    requires StoresOutward(n, locals, d) && d < d1
    ensures Changes(n, d1) <= locals
    decreases n, 1, 0
  {
    OwnIsLocal(n, locals, d, d1);
    KidsAreMasked(n, 0, locals, d, d1);
    hide StoresOutward, Own, KidsChange, Locals;
  }

  lemma OwnIsLocal(n: Node, locals: set<string>, d: nat, d1: nat)
    requires StoresOutward(n, locals, d) && d < d1
    ensures Own(n, d1) <= locals
  {
  }

  lemma {:induction false} KidsAreMasked(n: Node, from: nat, locals: set<string>, d: nat, d1: nat)
    requires StoresOutward(n, locals, d) && d < d1
    ensures KidsChange(n, from, d1) <= locals
    decreases n, 0, |n.kids| - from
  {
    hide Changes, Declared;
    if from < |n.kids| {
      OuterStoresAreMasked(n.kids[from], locals, d, KidDepth(n, from, d1));
      KidsAreMasked(n, from + 1, locals, d, d1);
    }
  }

  // ---------- select ----------

  ghost predicate SameOperand(operand: Node, st: St, shortCircuit: bool, env: Env, d: nat, k: nat)
  {
    var r := RunOperand(operand, st, shortCircuit, env, d, k);
    r == RunOperand(operand, st, true, env, d, k)
    || (r.Unfinished? && HasUniformLoop(operand))
    || (st.mask == {} && r.Done? && r.st == st)  // the values that it skips are not used
  }

  lemma OperandPredicated(operand: Node, st: St, shortCircuit: bool, env: Env, d: nat, k: nat)
    requires Good(operand, env) && Changes(operand, d) == {}
    ensures SameOperand(operand, st, shortCircuit, env, d, k)
  {
    hide Good, Run, HasUniformLoop, Agree, Changes;
    if st.mask == {} && !shortCircuit {
      RunAllOff(operand, st, env, Plain(d), k);
      var r := Run(operand, st, env, Plain(d), k);
      if r.Done? {
        AgreeNone(st, r.st);
      }
    }
  }

  /** The two results leave the same state, and the same value in the lanes that are on. */
  ghost predicate SameWhereOn(st: St, r: Result, r1: Result)
  {
    && r.Done? == r1.Done? && (!r.Done? ==> r == r1)
    && (r.Done? ==>
          r.st == r1.st
          && forall p: nat, l: Lane :: l in st.mask && l < |st.vars| ==>
               InLane(Part(r.value, p), l) == InLane(Part(r1.value, p), l))
  }

  /** A select whose operands change nothing by their text may evaluate them although no
      lane wants them. */
  lemma {:induction false} SelectPredicated(n: Node, st: St, test: Mask, env: Env, d: nat, k: nat)
    requires n.kind.Select? && |n.kids| == 3
    requires forall i :: 1 <= i <= 2 ==> Good(n.kids[i], env) && Changes(n.kids[i], d) == {}
    ensures
      var r := RunOperands(n, st, test, env, d, k);
      SameWhereOn(st, r, RunOperands(n.(kind := Select(true, true)), st, test, env, d, k))
      || (r.Unfinished? && (HasUniformLoop(n.kids[1]) || HasUniformLoop(n.kids[2])))
  {
    hide Good, RunOperand, HasUniformLoop, Changes, Selected;
    var st1 := st.(mask := st.mask * test);
    OperandPredicated(n.kids[1], st1, n.kind.shortCircuit1, env, d, k);
    var r := RunOperand(n.kids[1], st1, n.kind.shortCircuit1, env, d, k);
    SkippedOperand(n.kids[1], st1, env, d, k);
    if r.Done? {
      var st2 := r.st.(mask := st.mask - test);
      OperandPredicated(n.kids[2], st2, n.kind.shortCircuit2, env, d, k);
      SkippedOperand(n.kids[2], st2, env, d, k);
      var r1 := RunOperand(n.kids[1], st1, true, env, d, k);
      var r2 := RunOperand(n.kids[2], st2, n.kind.shortCircuit2, env, d, k);
      var r3 := RunOperand(n.kids[2], st2, true, env, d, k);
      SelectedAgree(st, test, r, r1, r2, r3);
    }
  }

  lemma SkippedOperand(operand: Node, st: St, env: Env, d: nat, k: nat)
    ensures st.mask == {} ==> RunOperand(operand, st, true, env, d, k) == Done(st, [])
  {
  }

  lemma SelectedAgree(st: St, test: Mask, a: Result, a1: Result, b: Result, b1: Result)
    requires a.Done? && a1.Done? && (a == a1 || st.mask * test == {})
    requires b.Done? && b1.Done? ==> b == b1 || st.mask - test == {}
    ensures b.Done? && b1.Done? ==>
        forall p: nat, l: Lane :: l in st.mask && l < |st.vars| ==>
          InLane(Part(Selected(st, test, a.value, b.value), p), l)
          == InLane(Part(Selected(st, test, a1.value, b1.value), p), l)
  {
    forall p: nat, l: Lane | l in st.mask && l < |st.vars| && b.Done? && b1.Done?
      ensures InLane(Part(Selected(st, test, a.value, b.value), p), l)
          == InLane(Part(Selected(st, test, a1.value, b1.value), p), l)
    {
      SelectedAt(st, test, a.value, b.value, p, l);
      SelectedAt(st, test, a1.value, b1.value, p, l);
      if l in test {
        assert l in st.mask * test;
      } else {
        assert l in st.mask - test;
      }
    }
  }

  lemma SelectedAt(st: St, test: Mask, a: Value, b: Value, p: nat, l: Lane)
    requires l < |st.vars|
    ensures InLane(Part(Selected(st, test, a, b), p), l) == InLane(Part(if l in test then a else b, p), l)
  {
  }

  // ---------- logical operators ----------

  /** Expressions that only compute. */
  predicate Pure(n: Node)
  {
    && (match n.kind
        case Const(_) => n.kids == []
        case Symbol(_) => n.kids == []
        case Unary(op) => op.Map?
        case Binary(op) => op.Op?
        case Logical(_, shortCircuit) => !shortCircuit
        case Combine(_) => true
        case Member(dereference, _, _) => !dereference
        case _ => false)
    && forall i :: 0 <= i < |n.kids| ==> Pure(n.kids[i])
  }

  /** What a pure expression does does not depend on the mask. */
  lemma {:induction false} PureRuns(n: Node, st: St, mask: Mask, env: Env, w: Place, k: nat)
    requires Pure(n)
    ensures
      var r := Run(n, st, env, w, k);
      r.Done? && r.st == st && Run(n, st.(mask := mask), env, w, k) == Done(st.(mask := mask), r.value)
    decreases n, 1, 0
  {
    PureKidsRun(n, 0, st, mask, env, w, k);
    hide Pure, RunKids, ReadPart, Spread, Column;
  }

  lemma {:induction false} PureKidsRun(n: Node, from: nat, st: St, mask: Mask, env: Env, w: Place, k: nat)
    requires Pure(n)
    ensures
      var rs := RunKids(n, from, st, env, w, k);
      rs.AllDone? && rs.st == st
      && RunKids(n, from, st.(mask := mask), env, w, k) == AllDone(st.(mask := mask), rs.values)
    decreases n, 0, |n.kids| - from
  {
    hide Run;
    if from < |n.kids| {
      PureRuns(n.kids[from], st, mask, env, w, k);
      PureKidsRun(n, from + 1, st, mask, env, w, k);
    }
  }

  /** The same state, and the same truth value in the lanes that are on. */
  ghost predicate SameTruth(st: St, r: Result, r1: Result)
  {
    && r.Done? && r1.Done? && r.st == r1.st
    && forall l: Lane :: l in st.mask && l < |st.vars| ==>
         (InLane(Part(r.value, 0), l) != 0) == (InLane(Part(r1.value, 0), l) != 0)
  }

  /** && and || that evaluate the second operand in every lane that is on, with the value a
      of the first one. */
  ghost function InEveryLane(n: Node, st: St, a: seq<int>, env: Env, d: nat, k: nat): Result
    requires n.kind.Logical? && |n.kids| == 2
  {
    var r := Run(n.kids[1], st, env, Plain(d), k);
    if r.Done? then Done(r.st, [Combined(n.kind.logical, r.st, a, Part(r.value, 0))]) else r
  }

  /** This is as good as evaluating it where the first one leaves the result open, if it
      only computes. */
  lemma {:induction false} LogicalAgrees(n: Node, st: St, a: seq<int>, env: Env, d: nat, k: nat)
    requires n.kind.Logical? && |n.kids| == 2 && Pure(n.kids[1])
    ensures SameTruth(st, InEveryLane(n, st, a, env, d, k), RunSecond(n, st, a, env, d, k))
  {
    PureRuns(n.kids[1], st, Undecided(n.kind.logical, st, a), env, Plain(d), k);
    var r := Run(n.kids[1], st, env, Plain(d), k);
    hide Pure, Run;
    if Undecided(n.kind.logical, st, a) == {} {
      NothingOpen(n.kind.logical, st, a, Part(r.value, 0));
    } else {
      SomeOpen(n.kind.logical, st, a, Part(r.value, 0));
    }
    hide Combined, Truths, Decided, Undecided;
  }

  lemma NothingOpen(op: LogicalOp, st: St, a: seq<int>, b: seq<int>)
    requires Undecided(op, st, a) == {}
    ensures SameTruth(st, Done(st, [Combined(op, st, a, b)]), Truths(Done(st, [a])))
  {
    forall l: Lane | l in st.mask && l < |st.vars|
      ensures (InLane(Combined(op, st, a, b), l) != 0) == (InLane(Part(Truths(Done(st, [a])).value, 0), l) != 0)
    {
      assert l !in Undecided(op, st, a);
    }
  }

  lemma SomeOpen(op: LogicalOp, st: St, a: seq<int>, b: seq<int>)
    ensures
      SameTruth(st, Done(st, [Combined(op, st, a, b)]), Done(st, [Decided(op, st, Undecided(op, st, a), a, b)]))
  {
  }

  /** These two are how && and || are run, once the first operand is done. */
  lemma LogicalRuns(n: Node, st: St, env: Env, d: nat, k: nat)
    requires n.kind.Logical? && |n.kids| == 2
    ensures
      var t := Run(n.kids[0], st, env, Plain(d), k);
      t.Done? && (n.kind.shortCircuit ==> !Uniform(n.kids[0])) ==>
        Run(n, st, env, Plain(d), k) ==
          if n.kind.shortCircuit then RunSecond(n, t.st, Part(t.value, 0), env, d, k)
          else InEveryLane(n, t.st, Part(t.value, 0), env, d, k)
  {
    hide Combined, Uniform, RunSecond, ReadVar;
    if n.kind.shortCircuit {
      assert Run(n, st, env, Plain(d), k) == RunLogical(n, st, env, Plain(d), k);
    } else {
      var t := Run(n.kids[0], st, env, Plain(d), k);
      if t.Done? {
        var r := Run(n.kids[1], t.st, env, Plain(d), k);
        if r.Done? {
          BothKids(n, st, t, r, env, Plain(d), k);
        } else {
          assert RunKids(n, 1, t.st, env, Plain(d), k) == Stopped(r);
          assert RunKids(n, 0, st, env, Plain(d), k) == Stopped(r);
        }
      }
    }
  }

  // ---------- stores, exactly ----------

  /** A part already holds what would be written to it: a uniform one in any case, a
      varying one if it is written in every lane. */
  predicate PartHolds(st: St, v: Variable, p: nat, c: seq<int>, everywhere: bool)
    requires p < |v.parts|
  {
    var x := Loc(v.name, p);
    if v.parts[p] then x in st.uni && st.uni[x] == InLane(c, 0)
    else everywhere ==> forall l :: 0 <= l < |st.vars| ==> x in st.vars[l] && st.vars[l][x] == InLane(c, l)
  }

  /** The variable already holds what a store writes with no lane on. */
  predicate Holds(st: St, lvalue: Node, value: Value, d: nat)
    requires LValue(lvalue)
  {
    var v := Base(lvalue);
    match lvalue.kind
    case Symbol(_) => forall p :: 0 <= p < |v.parts| ==> PartHolds(st, v, p, Part(value, p), Unmasked(v, d))
    case Member(_, part, _) => PartHolds(st, v, part, Part(value, 0), Unmasked(v, d))
    case Index(_) =>
      lvalue.kids[1].kind.Const? && |lvalue.kids[1].kind.vals| == 1
        && 0 <= lvalue.kids[1].kind.vals[0] < |v.parts| ==>
      PartHolds(st, v, lvalue.kids[1].kind.vals[0], Part(value, 0), Unmasked(v, d))
  }

  lemma WritePartExact(st: St, v: Variable, p: nat, c: seq<int>, everywhere: bool)
    requires p < |v.parts| && st.mask == {}
    ensures WritePart(st, v, p, c, everywhere) == st <==> PartHolds(st, v, p, c, everywhere)
  {
    var st1, x := WritePart(st, v, p, c, everywhere), Loc(v.name, p);
    if v.parts[p] {
      assert st1.uni[x] == InLane(c, 0);
      assert x in st.uni && st.uni[x] == InLane(c, 0) ==> st1.uni == st.uni;
    } else {
      assert forall l :: 0 <= l < |st.vars| ==>
          st1.vars[l] == if everywhere then st.vars[l][x := InLane(c, l)] else st.vars[l];
      if st1 == st && everywhere {
        forall l | 0 <= l < |st.vars|
          ensures x in st.vars[l] && st.vars[l][x] == InLane(c, l)
        {
          assert st.vars[l] == st.vars[l][x := InLane(c, l)];
        }
      } else if PartHolds(st, v, p, c, everywhere) {
        assert forall l :: 0 <= l < |st.vars| ==> st1.vars[l] == st.vars[l];
        assert st1.vars == st.vars;
      }
    }
  }

  /** The parts from p on do not touch the ones before. */
  lemma {:induction false} LaterParts(st: St, v: Variable, value: Value, p: nat, q: nat, everywhere: bool)
    requires q < p
    ensures
      var st1, x := WriteParts(st, v, value, p, everywhere), Loc(v.name, q);
      && (x in st1.uni <==> x in st.uni) && (x in st.uni ==> st1.uni[x] == st.uni[x])
      && forall l :: 0 <= l < |st.vars| ==>
           (x in st1.vars[l] <==> x in st.vars[l]) && (x in st.vars[l] ==> st1.vars[l][x] == st.vars[l][x])
    decreases |v.parts| - p
  {
    if p < |v.parts| {
      LaterParts(WritePart(st, v, p, Part(value, p), everywhere), v, value, p + 1, q, everywhere);
    }
  }

  lemma WrittenPart(st: St, v: Variable, p: nat, c: seq<int>, everywhere: bool)
    requires p < |v.parts|
    ensures PartHolds(WritePart(st, v, p, c, everywhere), v, p, c, everywhere)
  {
  }

  /** What a store of the parts from p on leaves in part p is what it wrote there. */
  lemma {:induction false} WritePartsExact(st: St, v: Variable, value: Value, p: nat, everywhere: bool)
    requires st.mask == {}
    ensures WriteParts(st, v, value, p, everywhere) == st <==>
        forall q :: p <= q < |v.parts| ==> PartHolds(st, v, q, Part(value, q), everywhere)
    decreases |v.parts| - p
  {
    if p < |v.parts| {
      var c := Part(value, p);
      var st1 := WritePart(st, v, p, c, everywhere);
      var st2 := WriteParts(st1, v, value, p + 1, everywhere);
      WritePartExact(st, v, p, c, everywhere);
      WrittenPart(st, v, p, c, everywhere);
      LaterParts(st1, v, value, p + 1, p, everywhere);
      assert PartHolds(st2, v, p, c, everywhere);
      hide WritePart, PartHolds;
      if PartHolds(st, v, p, c, everywhere) {
        WritePartsExact(st, v, value, p + 1, everywhere);
      }
    }
  }

  /** With no lane on, a store does nothing if and only if each uniform part that it
      writes already holds the value and, where the variable is as deep as its
      declaration, so does each varying part in every lane. */
  lemma StoreExact(st: St, lvalue: Node, value: Value, d: nat)
    requires LValue(lvalue) && st.mask == {}
    ensures Store(st, lvalue, value, d) == st <==> Holds(st, lvalue, value, d)
  {
    hide WritePart, WriteParts, Scatter, PartHolds;
    var v := Base(lvalue);
    match lvalue.kind
    case Symbol(_) => WritePartsExact(st, v, value, 0, Unmasked(v, d));
    case Member(_, part, _) => WritePartExact(st, v, part, Part(value, 0), Unmasked(v, d));
    case Index(_) =>
      if lvalue.kids[1].kind.Const? {
        var vals := lvalue.kids[1].kind.vals;
        if |vals| != 1 {
          ScatterAllOff(st, v, Spread(vals, |st.vars|), Part(value, 0), 0);
        } else if 0 <= vals[0] < |v.parts| {
          WritePartExact(st, v, vals[0], Part(value, 0), Unmasked(v, d));
        }
      }
  }

  /** An assignment of a pure value: it is found safe if the lvalue is not uniform, and with
      no lane on it does nothing if and only if the variable already holds the value. */
  lemma {:induction false} AssignExact(n: Node, st: St, env: Env, w: Place, k: nat)
    requires n.kind == Assign(None) && |n.kids| == 2 && LValue(n.kids[0]) && Pure(n.kids[1]) && st.mask == {}
    requires n.kids[0].kind.Symbol?
    ensures Safe(n) <==> !Uniform(n.kids[0]) && Safe(n.kids[1])
    ensures
      var v := Run(n.kids[1], st, env, w, k);
      var r := Run(n, st, env, w, k);
      v.Done? && r == Done(Store(st, n.kids[0], v.value, w.depth), v.value)
      && (r.st == st <==> Holds(st, n.kids[0], v.value, w.depth))
  {
    hide Holds, Store, Pure, Safe, Run;
    AssignIsSafe(n);
    PureRuns(n.kids[1], st, {}, env, w, k);
    var v := Run(n.kids[1], st, env, w, k);
    StoreExact(st, n.kids[0], v.value, w.depth);
    SymbolRuns(n.kids[0], st, env, w, k);
    BothKids(n, st, Run(n.kids[0], st, env, w, k), v, env, w, k);
  }

  lemma AssignIsSafe(n: Node)
    requires n.kind.Assign? && |n.kids| == 2 && IsVariable(n.kids[0])
    ensures Safe(n) <==> !Uniform(n.kids[0]) && Safe(n.kids[1])
  {
    assert Safe(n.kids[0]);
  }

  lemma SymbolRuns(n: Node, st: St, env: Env, w: Place, k: nat)
    requires IsVariable(n)
    ensures Run(n, st, env, w, k) == Done(st, ReadVar(st, n.kind.variable))
  {
  }

  lemma OneKidRuns(n: Node, st: St, r: Result, env: Env, w: Place, k: nat)
    requires |n.kids| == 1 && Strict(n.kind) && r.Done? && Run(n.kids[0], st, env, w, k) == r
    ensures Run(n, st, env, w, k) == Apply(n, r.st, [r.value], env, w)
  {
    hide Apply;
    assert RunKids(n, 1, r.st, env, w, k) == AllDone(r.st, []);
    assert RunKids(n, 0, st, env, w, k) == AllDone(r.st, [r.value]);
  }

  lemma BothKids(n: Node, st: St, a: Result, b: Result, env: Env, w: Place, k: nat)
    requires |n.kids| == 2 && Strict(n.kind) && a.Done? && b.Done?
    requires Run(n.kids[0], st, env, w, k) == a && Run(n.kids[1], a.st, env, w, k) == b
    ensures Run(n, st, env, w, k) == Apply(n, b.st, [a.value, b.value], env, w)
  {
    hide Apply;
    assert RunKids(n, 2, b.st, env, w, k) == AllDone(b.st, []);
    assert RunKids(n, 1, a.st, env, w, k) == AllDone(b.st, [b.value]);
    assert RunKids(n, 0, st, env, w, k) == AllDone(b.st, [a.value, b.value]);
  }

  /** Does a store to v in these lanes reach lane l? */
  predicate Reaches(v: Variable, d: nat, lanes: Mask, l: Lane)
  {
    Unmasked(v, d) || l in lanes
  }

  /** && and || with an assignment x = e as second operand: evaluating it in every lane that
      is on agrees with short-circuit evaluation if and only if x already holds the value
      in the lanes that only the former writes. */
  lemma {:induction false} LogicalAssignExact(n: Node, st: St, a: seq<int>, env: Env, d: nat, k: nat)
    requires n.kind.Logical? && |n.kids| == 2 && n.kids[1].kind == Assign(None) && |n.kids[1].kids| == 2
    requires IsVariable(n.kids[1].kids[0]) && Base(n.kids[1].kids[0]).parts == [false] && Pure(n.kids[1].kids[1])
    ensures
      var v, e := Base(n.kids[1].kids[0]), Run(n.kids[1].kids[1], st, env, Plain(d), k);
      var on, x := Undecided(n.kind.logical, st, a), Loc(v.name, 0);
      e.Done? && InEveryLane(n, st, a, env, d, k).Done? && RunSecond(n, st, a, env, d, k).Done?
      && (InEveryLane(n, st, a, env, d, k).st == RunSecond(n, st, a, env, d, k).st <==>
            forall l: Lane :: l < |st.vars| && Reaches(v, d, st.mask, l) && !(on != {} && Reaches(v, d, on, l)) ==>
              x in st.vars[l] && st.vars[l][x] == InLane(Part(e.value, 0), l))
  {
    var assign, on := n.kids[1], Undecided(n.kind.logical, st, a);
    var v := Base(assign.kids[0]);
    PureRuns(assign.kids[1], st, on, env, Plain(d), k);
    var e := Run(assign.kids[1], st, env, Plain(d), k);
    AssignRuns(assign, st, e.value, env, Plain(d), k);
    AssignRuns(assign, st.(mask := on), e.value, env, Plain(d), k);
    hide Run, Pure, Combined, Decided;
    ScalarStores(st, v, e.value, on, Unmasked(v, d));
  }

  lemma AssignRuns(n: Node, st: St, value: Value, env: Env, w: Place, k: nat)
    requires n.kind == Assign(None) && |n.kids| == 2 && IsVariable(n.kids[0]) && |Base(n.kids[0]).parts| == 1
    requires Run(n.kids[1], st, env, w, k) == Done(st, value)
    ensures
      var v := Base(n.kids[0]);
      Run(n, st, env, w, k) == Done(WritePart(st, v, 0, Part(value, 0), Unmasked(v, w.depth)), value)
  {
    SymbolRuns(n.kids[0], st, env, w, k);
    BothKids(n, st, Run(n.kids[0], st, env, w, k), Done(st, value), env, w, k);
    hide Run, WritePart;
    var v := Base(n.kids[0]);
    assert WriteParts(st, v, value, 0, Unmasked(v, w.depth))
        == WritePart(st, v, 0, Part(value, 0), Unmasked(v, w.depth));
  }

  lemma ScalarStores(st: St, v: Variable, value: Value, on: Mask, everywhere: bool)
    requires v.parts == [false] && on <= st.mask
    ensures
      var x, c := Loc(v.name, 0), Part(value, 0);
      var st1 := WritePart(st, v, 0, c, everywhere);
      var st2 := WritePart(st.(mask := on), v, 0, c, everywhere).(mask := st.mask);
      && (st1 == st2 <==> forall l: Lane :: l < |st.vars| && !everywhere && l in st.mask && l !in on ==>
            x in st.vars[l] && st.vars[l][x] == InLane(c, l))
      && (st1 == st <==> forall l: Lane :: l < |st.vars| && (everywhere || l in st.mask) ==>
            x in st.vars[l] && st.vars[l][x] == InLane(c, l))
  {
    var x, c := Loc(v.name, 0), Part(value, 0);
    var st1 := WritePart(st, v, 0, c, everywhere);
    var st2 := WritePart(st.(mask := on), v, 0, c, everywhere).(mask := st.mask);
    forall l: Lane | l < |st.vars|
      ensures st1.vars[l] == st2.vars[l] <==>
          (!everywhere && l in st.mask && l !in on ==> x in st.vars[l] && st.vars[l][x] == InLane(c, l))
      ensures st1.vars[l] == st.vars[l] <==>
          (everywhere || l in st.mask ==> x in st.vars[l] && st.vars[l][x] == InLane(c, l))
    {
      assert st.vars[l][x := InLane(c, l)][x] == InLane(c, l);
    }
    assert st1.vars == st2.vars <==> forall l: Lane :: l < |st.vars| ==> st1.vars[l] == st2.vars[l];
    assert st1.vars == st.vars <==> forall l: Lane :: l < |st.vars| ==> st1.vars[l] == st.vars[l];
  }

  /** Compound division, x /= b and x %= b: the analysis takes it for safe, but with no
      lane on it runs through if and only if b is a constant other than zero, or b is no
      constant and what lies past the last lane is not zero; else it faults. */
  lemma {:induction false} CompoundDivisionExact(n: Node, st: St, env: Env, w: Place, k: nat)
    requires CompoundDivision(n.kind) && |n.kids| == 2 && IsVariable(n.kids[0]) && !Uniform(n.kids[0])
    requires Pure(n.kids[1]) && Safe(n.kids[1]) && st.mask == {}
    ensures Safe(n)
    ensures
      var r := Run(n, st, env, w, k);
      if DividesAllOff(n.kids[1], env) then r.Done? && Agree(st, r.st, Own(n, w.depth)) else r == Fault
  {
    hide Pure, Agree, Own, Store, Safe, Run;
    AssignIsSafe(n);
    PureRuns(n.kids[1], st, {}, env, w, k);
    SymbolRuns(n.kids[0], st, env, w, k);
    var a, b := Run(n.kids[0], st, env, w, k), Run(n.kids[1], st, env, w, k);
    assert !Uniform(n);
    BothKids(n, st, a, b, env, w, k);
    if DividesAllOff(n.kids[1], env) {
      AssignsOwn(n, st, [a.value, b.value], env, w);
    }
  }

  /** A return stores the uniform parts of its value whatever the mask is, so with no lane
      on it does nothing if and only if they are already there. */
  lemma {:induction false} ReturnExact(n: Node, st: St, env: Env, w: Place, k: nat)
    requires n.kind.Return? && |n.kids| == 1 && Pure(n.kids[0]) && Safe(n.kids[0]) && st.mask == {}
    ensures Safe(n)
    ensures
      var slot, v := n.kind.slot, Run(n.kids[0], st, env, w, k);
      var r := Run(n, st, env, w, k);
      v.Done? && r == Done(WriteParts(st, slot, v.value, 0, slot.uniform), [])
      && (r.st == st <==>
            forall p :: 0 <= p < |slot.parts| ==> PartHolds(st, slot, p, Part(v.value, p), slot.uniform))
  {
    hide Pure, PartHolds, WriteParts, Safe, Run;
    OneKidIsSafe(n);
    PureRuns(n.kids[0], st, {}, env, w, k);
    var slot, v := n.kind.slot, Run(n.kids[0], st, env, w, k);
    WritePartsExact(st, slot, v.value, 0, slot.uniform);
    OneKidRuns(n, st, v, env, w, k);
    assert st.returned + {} == st.returned;
  }

  lemma OneKidIsSafe(n: Node)
    requires n.kind.Return? && |n.kids| == 1 && Safe(n.kids[0])
    ensures Safe(n)
  {
  }

  // ---------- case labels ----------

  /** Is the mask checked at a label with this first statement?  The parser attaches only
      that one to the label. */
  predicate CheckMask(first: Node, cost: nat)
  {
    first.kind != Null && (cost > 6 || !Safe(first))
  }

  /** The statements at a label, when no lane is there, do what skipping them does, or do
      not end, if all of them are safe and change nothing by their text. */
  lemma {:induction false} LabelPredicated(n: Node, st: St, env: Env, w: Place, k: nat)
    requires n.kind.Label? && Good(n, env) && Changes(n, w.depth) == {} && st.mask == {} && !w.direct
    ensures
      var r := Run(n, st, env, w, k);
      (r.Done? && r.st == st) || (r.Unfinished? && HasUniformLoop(n))
  {
    hide Good, Run, Changes, HasUniformLoop, Agree;
    RunAllOff(n, st, env, w, k);
    if Run(n, st, env, w, k).Done? {
      AgreeNone(st, Run(n, st, env, w, k).st);
    }
  }

  /** x = c; for a variable of an atomic type. */
  predicate SetsConstant(s: Node)
  {
    && s.kind.ExprStmt? && |s.kids| == 1 && s.kids[0].kind == Assign(None) && |s.kids[0].kids| == 2
    && IsVariable(s.kids[0].kids[0]) && |Base(s.kids[0].kids[0]).parts| == 1
    && s.kids[0].kids[1].kind.Const? && s.kids[0].kids[1].kids == [] && |s.kids[0].kids[1].kind.vals| == 1
  }

  predicate SetsConstants(n: Node)
  {
    n.kind.Label? && forall i :: 0 <= i < |n.kids| ==> SetsConstant(n.kids[i])
  }

  function Target(s: Node): (x: Node)
    requires SetsConstant(s)
    ensures IsVariable(x) && |Base(x).parts| == 1
  {
    s.kids[0].kids[0]
  }

  function Constant(s: Node): int
    requires SetsConstant(s)
  {
    s.kids[0].kids[1].kind.vals[0]
  }

  /** The state after x = c; */
  function AfterSet(s: Node, st: St, d: nat): St
    requires SetsConstant(s)
  {
    WritePart(st, Base(Target(s)), 0, Spread([Constant(s)], |st.vars|), Unmasked(Base(Target(s)), d))
  }

  lemma SetRuns(s: Node, st: St, env: Env, w: Place, k: nat)
    requires SetsConstant(s)
    ensures Run(s, st, env, w, k) == Done(AfterSet(s, st, w.depth), [])
  {
    var c := Spread([Constant(s)], |st.vars|);
    ConstantRuns(s.kids[0].kids[1], st, env, w, k);
    assert s.kids[0].kids[1].kind.vals == [Constant(s)];
    AssignRuns(s.kids[0], st, [c], env, w, k);
    hide Run, WritePart, Spread;
    OneKidRuns(s, st, Done(AfterSet(s, st, w.depth), [c]), env, w, k);
  }

  lemma ConstantRuns(n: Node, st: St, env: Env, w: Place, k: nat)
    requires n.kind.Const? && n.kids == []
    ensures Run(n, st, env, w, k) == Done(st, [Spread(n.kind.vals, |st.vars|)])
  {
    hide Spread;
    assert RunKids(n, 0, st, env, w, k) == AllDone(st, []);
  }

  /** Somewhere v holds something else than t. */
  predicate Differs(st: St, v: Variable, t: int)
    requires |v.parts| == 1
  {
    var x := Loc(v.name, 0);
    && |st.vars| > 0
    && if v.parts[0] then x in st.uni && st.uni[x] != t else x in st.vars[0] && st.vars[0][x] != t
  }

  lemma SetAllOff(s: Node, st: St, d: nat, v: Variable, t: int)
    requires SetsConstant(s) && st.mask == {} && |v.parts| == 1 && Constant(s) != t
    ensures AfterSet(s, st, d).mask == {} && |AfterSet(s, st, d).vars| == |st.vars|
    ensures !Spills(Target(s), d) ==> AfterSet(s, st, d) == st
    ensures Spills(Target(s), d) && |st.vars| > 0 ==> Differs(AfterSet(s, st, d), Base(Target(s)), t)
    ensures Differs(st, v, t) ==> Differs(AfterSet(s, st, d), v, t)
  {
    WritePartAllOff(
      st, Base(Target(s)), 0, Spread([Constant(s)], |st.vars|), Unmasked(Base(Target(s)), d));
  }

  /** Does one of the statements from the from-th on spill to v? */
  predicate SpillsTo(n: Node, from: nat, v: Variable, d: nat)
    requires SetsConstants(n)
  {
    exists i :: from <= i < |n.kids| && Base(Target(n.kids[i])) == v && Spills(Target(n.kids[i]), d)
  }

  /** The statements of the label from the from-th on, with no lane on. */
  lemma {:induction false} SetsAllOff(n: Node, from: nat, st: St, env: Env, w: Place, k: nat, v: Variable, t: int)
    requires SetsConstants(n) && from <= |n.kids| && st.mask == {} && |v.parts| == 1
    requires forall i :: 0 <= i < |n.kids| ==> Constant(n.kids[i]) != t
    ensures
      var rs := RunKids(n, from, st, env, w, k);
      rs.AllDone?
      && ((forall i :: from <= i < |n.kids| ==> !Spills(Target(n.kids[i]), w.depth)) ==> rs.st == st)
      && (Differs(st, v, t) ==> Differs(rs.st, v, t))
      && (|st.vars| > 0 && SpillsTo(n, from, v, w.depth) ==> Differs(rs.st, v, t))
    decreases |n.kids| - from
  {
    hide Run, Differs, AfterSet, Spills, Target, Constant;
    if from < |n.kids| {
      SetRuns(n.kids[from], st, env, w, k);
      SetAllOff(n.kids[from], st, w.depth, v, t);
      SetsAllOff(n, from + 1, AfterSet(n.kids[from], st, w.depth), env, w, k, v, t);
    }
  }

  /** A number that none of the statements from the from-th on sets a variable to. */
  function Unused(n: Node, from: nat): (t: int)
    requires SetsConstants(n)
    ensures forall i :: from <= i < |n.kids| ==> Constant(n.kids[i]) < t
    decreases |n.kids| - from
  {
    if from >= |n.kids| then 0
    else
      var t := Unused(n, from + 1);
      if Constant(n.kids[from]) < t then t else Constant(n.kids[from]) + 1
  }

  /** In every state with no lane on, the statements at an unchecked label, all of them and
      not just the first, do what skipping them does, if and only if none of them spills. */
  lemma {:induction false} UncheckedLabelExact(n: Node, env: Env, w: Place, k: nat)
    requires SetsConstants(n)
    ensures
      (forall st: St :: st.mask == {} ==> Run(n, st, env, w, k) == Done(st, []))
      <==> forall i :: 0 <= i < |n.kids| ==> !Spills(Target(n.kids[i]), w.depth)
  {
    hide Run, Spills, Target, Constant;
    var t := Unused(n, 0);
    if exists i :: 0 <= i < |n.kids| && Spills(Target(n.kids[i]), w.depth) {
      var i :| 0 <= i < |n.kids| && Spills(Target(n.kids[i]), w.depth);
      var v := Base(Target(n.kids[i]));
      var memory: Memory := map[Loc(v.name, 0) := t];
      var st := St({}, {}, {}, {}, memory, [memory], map[]);
      assert SpillsTo(n, 0, v, w.depth);
      SetsAllOff(n, 0, st, env, w, k, v, t);
      LabelRuns(n, st, env, w, k);
      assert !Differs(st, v, t);
      assert Run(n, st, env, w, k) != Done(st, []);
    } else {
      forall st: St | st.mask == {}
        ensures Run(n, st, env, w, k) == Done(st, [])
      {
        SetsAllOff(n, 0, st, env, w, k, Variable("", true, [true], 0, true), t);
        LabelRuns(n, st, env, w, k);
      }
    }
  }

  lemma LabelRuns(n: Node, st: St, env: Env, w: Place, k: nat)
    requires n.kind.Label? && RunKids(n, 0, st, env, w, k).AllDone?
    ensures Run(n, st, env, w, k) == Done(RunKids(n, 0, st, env, w, k).st, [])
  {
    hide RunKids;
  }

  /** The same switch with the mask checked at every label. */
  function Checked(n: Node): Node
  {
    n.(kids := seq(|n.kids|, i requires 0 <= i < |n.kids| => CheckedLabel(n.kids[i])))
  }

  function CheckedLabel(kid: Node): Node
  {
    if kid.kind.Label? then kid.(kind := Label(kid.kind.caseValue, true)) else kid
  }

  lemma {:induction false} CheckedLabelRuns(kid: Node, st: St, env: Env, w: Place, k: nat)
    ensures Run(CheckedLabel(kid), st, env, w, k) == Run(kid, st, env, w, k)
  {
    if kid.kind.Label? {
      CheckedLabelKids(kid, 0, st, env, w, k);
      hide RunKids;
    }
  }

  lemma {:induction false} CheckedLabelKids(kid: Node, from: nat, st: St, env: Env, w: Place, k: nat)
    requires kid.kind.Label?
    ensures RunKids(CheckedLabel(kid), from, st, env, w, k) == RunKids(kid, from, st, env, w, k)
    decreases |kid.kids| - from
  {
    hide Run;
    if from < |kid.kids| {
      var r := Run(kid.kids[from], st, env, w, k);
      if r.Done? {
        CheckedLabelKids(kid, from + 1, r.st, env, w, k);
      }
    }
  }

  lemma CheckedSwitch(n: Node, d: nat)
    requires n.kind.Switch? && n.kids != [] && !n.kids[0].kind.Label?
    ensures Checked(n).kids[0] == n.kids[0] && |Checked(n).kids| == |n.kids| && Checked(n).kind == n.kind
    ensures Labels(Checked(n), d) == Labels(n, d)
    ensures forall v: int :: HasCase(Checked(n), v) == HasCase(n, v)
  {
    forall i | 0 <= i < |n.kids|
      ensures HasVaryingBreakOrContinue(Checked(n).kids[i], false) == HasVaryingBreakOrContinue(n.kids[i], false)
    {
      CheckedLabelBreaks(n.kids[i]);
    }
    forall v: int
      ensures HasCase(Checked(n), v) == HasCase(n, v)
    {
      assert forall i :: 1 <= i < |n.kids| ==>
          Checked(n).kids[i].kind.Label? == n.kids[i].kind.Label?
          && (n.kids[i].kind.Label? ==> Checked(n).kids[i].kind.caseValue == n.kids[i].kind.caseValue);
    }
  }

  lemma CheckedLabelBreaks(kid: Node)
    ensures HasVaryingBreakOrContinue(CheckedLabel(kid), false) == HasVaryingBreakOrContinue(kid, false)
  {
  }

  /** Each unchecked label has safe statements that change nothing by their text. */
  ghost predicate UncheckedAreSafe(n: Node, env: Env, d: nat)
    requires n.kids != []
  {
    forall i :: 1 <= i < |n.kids| && n.kids[i].kind.Label? && !n.kids[i].kind.checkMask ==>
      Good(n.kids[i], env) && Changes(n.kids[i], Labels(n, d).depth) == {}
  }

  /** The i-th label as the checked switch has it. */
  lemma CheckedAt(n: Node, i: nat, entry: Mask, c: seq<int>, st: St, env: Env, d: nat, k: nat)
    requires n.kind.Switch? && n.kids != [] && !n.kids[0].kind.Label? && 1 <= i < |n.kids|
    ensures |Checked(n).kids| == |n.kids| && Checked(n).kind.Switch? && Checked(n).kids[0] == n.kids[0]
    ensures Starting(Checked(n), i, entry, c) == Starting(n, i, entry, c)
    ensures Run(Checked(n).kids[i], st, env, Labels(Checked(n), d), k) == Run(n.kids[i], st, env, Labels(n, d), k)
    ensures Checked(n).kids[i].kind.Label? == n.kids[i].kind.Label?
    ensures n.kids[i].kind.Label? ==> Checked(n).kids[i].kind.checkMask
  {
    hide Run, HasCase, KidDepth;
    CheckedSwitch(n, d);
    CheckedLabelRuns(n.kids[i], st, env, Labels(n, d), k);
    assert Checked(n).kids[i] == CheckedLabel(n.kids[i]);
  }

  /** For every mask, a varying switch does the same with and without the mask checks, or
      does not end because of a uniform loop at a label where no lane is, if the
      statements of its unchecked labels, all of them, are safe and change nothing. */
  lemma {:induction false} ChecksAgree(
    n: Node, i: nat, st: St, entry: Mask, c: seq<int>, env: Env, d: nat, k: nat)
    requires n.kind.Switch? && n.kids != [] && !n.kids[0].kind.Label? && 1 <= i && !Uniform(n.kids[0])
    requires UncheckedAreSafe(n, env, d)
    ensures
      var r := RunLabels(n, i, st, entry, c, true, env, d, k);
      r == RunLabels(Checked(n), i, st, entry, c, true, env, d, k) || (r.Unfinished? && HasUniformLoop(n))
    decreases |n.kids| - i
  {
    hide Good, Run, Uniform, HasUniformLoop, Changes, Checked, Starting, Labels, Matches;
    if i >= |n.kids| {
      assert |Checked(n).kids| == |n.kids| by { CheckedSize(n); }
    } else {
      var st1 := st.(mask := st.mask + Starting(n, i, entry, c));
      CheckedAt(n, i, entry, c, st1, env, d, k);
      ChecksAgree(n, i + 1, st1, entry, c, env, d, k);
      var r := Run(n.kids[i], st1, env, Labels(n, d), k);
      if r.Done? {
        ChecksAgree(n, i + 1, r.st, entry, c, env, d, k);
      }
      if n.kids[i].kind.Label? && !n.kids[i].kind.checkMask && st1.mask == {} {
        UncheckedLabel(n, i, st1, env, d, k);
      }
    }
  }

  lemma CheckedSize(n: Node)
    ensures |Checked(n).kids| == |n.kids|
  {
  }

  lemma UncheckedLabel(n: Node, i: nat, st: St, env: Env, d: nat, k: nat)
    requires n.kind.Switch? && 1 <= i < |n.kids| && !Uniform(n.kids[0]) && UncheckedAreSafe(n, env, d)
    requires n.kids[i].kind.Label? && !n.kids[i].kind.checkMask && st.mask == {}
    ensures
      var r := Run(n.kids[i], st, env, Labels(n, d), k);
      (r.Done? && r.st == st) || (r.Unfinished? && HasUniformLoop(n))
  {
    hide Good, Run, Uniform, HasUniformLoop, Changes;
    LabelPredicated(n.kids[i], st, env, Labels(n, d), k);
    KidHasUniformLoop(n);
  }
}
