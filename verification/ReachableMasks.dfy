/** The mask invariant in every state that a masked run goes through. */
module ReachableMasks {
  import opened Lang
  import opened MaskContext
  import opened MaskedRun
  import opened StackDiscipline
  import opened LaneInvariant
  import opened LoopSimulation
  import opened SwitchLabels
  import opened SwitchSimulation
  import opened LaneSimulation
  import opened GangTheorems

  /** Within the function mask, saved masks shrink inward and the active lanes lie
      inside every one of them. */
  ghost predicate Nested(c: Ctx)
  {
    && (forall i :: 0 <= i < |c.stack| ==> FullMask(c) <= c.stack[i].savedMask)
    && (forall i, j :: 0 <= i < j < |c.stack| ==> c.stack[j].savedMask * c.functionMask <= c.stack[i].savedMask)
  }

  /** v is the state before or after s, or some statement that runs inside s, in
      the masked run of s from c; or, if between is set, one between two statements: before
      or after the test of a loop, or after the code of a label. */
  ghost predicate Visits(s: Stmt, c: Ctx, k: nat, between: bool, v: Ctx)
    decreases s, 1, 0
  {
    v == c || v == Run(s, c, k)
    || (c.control == Here && match s
          case Seq(first, second) =>
            Visits(first, c, k, between, v)
            || (Run(first, c, k).control == Here && Visits(second, Run(first, c, k), k, between, v))
          case UniformIf(utest, thn, els) =>
            Visits(if utest(c.uniforms) then thn else els, StartUniformIf(c), k, between, v)
          case VaryingIf(_, thn, els, anyCheck) =>
            var c1 := TrueSide(s, c);
            var c2 := RunSide(thn, c1, anyCheck, k);
            VisitsSide(thn, c1, anyCheck, k, between, v)
            || (c2.control == Here && VisitsSide(els, FalseSide(s, c, c2), anyCheck, k, between, v))
          case Loop(_, _, _, _) =>
            VisitsInLoop(s, StartLoop(c, BreakBlock(|c.stack|), ContinueBlock(|c.stack|), false), k, k, between, v)
          case VaryingSwitch(expr, cases) =>
            VisitsInCases(s, EnterSwitch(c, false, LaneValues(SwitchLanes(c, expr)), cases), 0, k, between, v)
          case UniformSwitch(selector, uniformFlow, cases) =>
            VisitsInCases(s, EnterSwitch(c, uniformFlow, OneValue(selector(c.uniforms)), cases), 0, k, between, v)
          case _ => false)
  }

  ghost predicate VisitsSide(side: Stmt, c: Ctx, anyCheck: bool, k: nat, between: bool, v: Ctx)
    decreases side, 2, 0
  {
    !(anyCheck && FullMask(c) == {}) && Visits(side, c, k, between, v)
  }

  ghost predicate VisitsInLoop(s: Stmt, c: Ctx, n: nat, k: nat, between: bool, v: Ctx)
    requires s.Loop?
    decreases s, 0, n
  {
    (between && (v == c || v == Tested(s, c)))
    || (FullMask(Tested(s, c)) != {} && n > 0 &&
        var c2 := Run(s.body, BodyStart(s, c), k);
        Visits(s.body, BodyStart(s, c), k, between, v)
        || (Stays(c2) && VisitsInLoop(s, NextHead(s, c2), n - 1, k, between, v)))
  }

  ghost predicate VisitsInCases(s: Stmt, c: Ctx, i: nat, k: nat, between: bool, v: Ctx)
    requires IsSwitch(s) && i <= |s.cases|
    decreases s, 0, |s.cases| - i
  {
    i < |s.cases| &&
    var c1 := EmitLabel(c, s.cases[i].caseLabel, s.cases[i].checkMask);
    (between && (c.control == Here || c1.control != c.control) && v == c1)
    || (c1.control == Here && Visits(s.cases[i].body, c1, k, between, v))
    || VisitsInCases(s, Run(s.cases[i].body, c1, k), i + 1, k, between, v)
  }

  ghost predicate Good(c: Ctx, between: bool, v: Ctx)
  {
    && MaskInv(v) && (!between ==> Inv(v)) && Nested(v)
    && v.functionMask == c.functionMask && c.returned <= v.returned && FullMask(v) <= FullMask(c)
    && VaryingDepth(v.stack) >= VaryingDepth(c.stack)
  }

  lemma PushNests(c: Ctx, c1: Ctx)
    requires Nested(c) && |c1.stack| == |c.stack| + 1 && Rest(c1.stack) == c.stack
    requires Top(c1.stack).savedMask == c.internal && c1.functionMask == c.functionMask
    requires FullMask(c1) <= FullMask(c)
    ensures Nested(c1)
  {
    assert forall i :: 0 <= i < |c.stack| ==> c1.stack[i] == c.stack[i];
  }

  lemma StaysNested(c: Ctx, c1: Ctx)
    requires Nested(c) && c1.stack == c.stack && c1.functionMask == c.functionMask && FullMask(c1) <= FullMask(c)
    ensures Nested(c1)
  {
  }

  lemma {:induction false} EndIsGood(s: Stmt, p: Place, c: Ctx, k: nat)
    requires Ready(s, p, c) && Nested(c)
    ensures Good(c, false, Run(s, c, k)) && FullMask(Run(s, c, k)) <= FullMask(c)
  {
    Simulate(s, p, c, k);
    OnlyActiveStay(c, Run(s, c, k));
    assert forall l: Lane :: l in FullMask(Run(s, c, k)) ==> Active(Run(s, c, k), l);
    StaysNested(c, Run(s, c, k));
  }

  lemma {:induction false} VisitedIsGood(s: Stmt, p: Place, c: Ctx, k: nat, between: bool, v: Ctx)
    requires Ready(s, p, c) && Nested(c) && Visits(s, c, k, between, v)
    ensures Good(c, between, v)
    decreases s, 1, 0
  {
    EndIsGood(s, p, c, k);
    if v != c && v != Run(s, c, k) {
      match s
      case Seq(first, second) =>
        EndIsGood(first, p, c, k);
        if Visits(first, c, k, between, v) {
          VisitedIsGood(first, p, c, k, between, v);
        } else {
          Discipline(first, c, k);
          StaysReady(second, p, c, Run(first, c, k));
          VisitedIsGood(second, p, Run(first, c, k), k, between, v);
        }
      case UniformIf(_, _, _) => VisitedInUniformIf(s, p, c, k, between, v);
      case VaryingIf(_, _, _, _) => VisitedInVaryingIf(s, p, c, k, between, v);
      case Loop(_, _, _, _) => VisitedInLoop(s, p, c, k, between, v);
      case VaryingSwitch(expr, cases) => VisitedInVaryingSwitch(s, p, c, k, between, v);
      case UniformSwitch(_, _, _) => VisitedInUniformSwitch(s, p, c, k, between, v);
    }
  }

  lemma {:induction false} VisitedInUniformIf(s: Stmt, p: Place, c: Ctx, k: nat, between: bool, v: Ctx)
    requires s.UniformIf? && Ready(s, p, c) && Nested(c)
    requires Visits(if s.utest(c.uniforms) then s.thn else s.els, StartUniformIf(c), k, between, v)
    ensures Good(c, between, v)
    decreases s, 0, 0
  {
    var side := if s.utest(c.uniforms) then s.thn else s.els;
    UniformIfReady(s, p, c);
    PushedFrame(c, IfFrame, true, c.internal);
    PushNests(c, StartUniformIf(c));
    VisitedIsGood(side, p, StartUniformIf(c), k, between, v);
  }

  lemma {:induction false} VisitedInVaryingIf(s: Stmt, p: Place, c: Ctx, k: nat, between: bool, v: Ctx)
    requires s.VaryingIf? && Ready(s, p, c) && Nested(c)
    requires
      var c2 := RunSide(s.thn, TrueSide(s, c), s.anyCheck, k);
      VisitsSide(s.thn, TrueSide(s, c), s.anyCheck, k, between, v)
      || (c2.control == Here && VisitsSide(s.els, FalseSide(s, c, c2), s.anyCheck, k, between, v))
    ensures Good(c, between, v) && VaryingDepth(v.stack) > VaryingDepth(c.stack)
    decreases s, 0, 0
  {
    var p1, c1 := p.(jumps := false), TrueSide(s, c);
    PushedFrame(c, IfFrame, false, c.internal);
    TrueSideReady(s, p, c);
    PushNests(c, c1);
    if VisitsSide(s.thn, c1, s.anyCheck, k, between, v) {
      VisitedIsGood(s.thn, p1, c1, k, between, v);
    } else {
      var c2 := RunSide(s.thn, c1, s.anyCheck, k);
      SideSimulates(s.thn, p1, c1, s.anyCheck, k);
      FalseSideReady(s, p, c, c2, k);
      FalseSideNested(s, c, c2);
      VisitedIsGood(s.els, p1, FalseSide(s, c, c2), k, between, v);
    }
  }

  lemma FalseSideNested(s: Stmt, c: Ctx, c2: Ctx)
    requires s.VaryingIf? && Nested(TrueSide(s, c)) && SameFrame(TrueSide(s, c), c2) && Nested(c)
    ensures Nested(FalseSide(s, c, c2))
  {
    PushedFrame(c, IfFrame, false, c.internal);
    PushNests(c, FalseSide(s, c, c2));
  }

  lemma {:induction false} VisitedInLoop(s: Stmt, p: Place, c: Ctx, k: nat, between: bool, v: Ctx)
    requires s.Loop? && Ready(s, p, c) && Nested(c)
    requires VisitsInLoop(s, StartLoop(c, BreakBlock(|c.stack|), ContinueBlock(|c.stack|), false), k, k, between, v)
    ensures Good(c, between, v) && VaryingDepth(v.stack) > VaryingDepth(c.stack)
    decreases s, 0, k + 1
  {
    var c0 := StartLoop(c, BreakBlock(|c.stack|), ContinueBlock(|c.stack|), false);
    PushedFrame(c, LoopFrame, false, c.internal);
    PushNests(c, c0);
    HeadOfLoop(c);
    VisitedFromHead(s, c0, k, k, between, v);
  }

  lemma {:induction false} VisitedFromHead(s: Stmt, c: Ctx, n: nat, k: nat, between: bool, v: Ctx)
    requires s.Loop? && AtHead(c) && Nested(c) && WellFormed(s.body, LoopBody)
    requires VisitsInLoop(s, c, n, k, between, v)
    ensures Good(c, between, v)
    decreases s, 0, n
  {
    hide Visits, Run, Inv, WellFormed;
    TestIsGood(s, c);
    if between && (v == c || v == Tested(s, c)) {
      return;
    }
    var c1 := BodyStart(s, c);
    var c2 := Run(s.body, c1, k);
    BodyReady(s, c);
    StaysNested(c, c1);
    if Visits(s.body, c1, k, between, v) {
      VisitedIsGood(s.body, LoopBody, c1, k, between, v);
    } else {
      Simulate(s.body, LoopBody, c1, k);
      NextIteration(s, c, c2, k);
      var c5 := NextHead(s, c2);
      assert forall l: Lane :: l in FullMask(c5) ==> Active(c5, l);
      StaysNested(c, c5);
      VisitedFromHead(s, c5, n - 1, k, between, v);
    }
  }

  /** The states before and after a loop test. */
  lemma TestIsGood(s: Stmt, c: Ctx)
    requires s.Loop? && AtHead(c) && Nested(c)
    ensures Good(c, true, c) && Good(c, true, Tested(s, c))
  {
    assert forall l: Lane :: l in c.functionMask ==> OneRole(c, l);
    StaysNested(c, Tested(s, c));
  }

  lemma {:induction false} VisitedInVaryingSwitch(s: Stmt, p: Place, b: Ctx, k: nat, between: bool, v: Ctx)
    requires s.VaryingSwitch? && Ready(s, p, b) && Nested(b)
    requires VisitsInCases(s, EnterSwitch(b, false, LaneValues(SwitchLanes(b, s.expr)), s.cases), 0, k, between, v)
    ensures Good(b, between, v) && VaryingDepth(v.stack) > VaryingDepth(b.stack)
    decreases s, 0, |s.cases| + 1
  {
    var vs := SwitchLanes(b, s.expr);
    var c0 := EnterSwitch(b, false, LaneValues(vs), s.cases);
    FirstLabel(s, b, vs);
    forall i | 0 <= i < |s.cases| { BodySound(s.cases[i].body, VaryingBody, k); }
    VisitedFromLabel(s, b, vs, c0, 0, k, between, v);
  }

  lemma VisitsStart(s: Stmt, c: Ctx, k: nat, between: bool)
    ensures Visits(s, c, k, between, c)
  {
    hide Run;
  }

  lemma RunsNothing(s: Stmt, c: Ctx, k: nat)
    requires c.control != Here
    ensures Run(s, c, k) == c
  {
  }

  lemma GoodIsNested(c: Ctx, v: Ctx)
    requires Good(c, true, v)
    ensures Nested(v)
  {
  }

  lemma GoodIsLater(c: Ctx, c1: Ctx, between: bool, v: Ctx)
    requires Good(c, true, c1) && Good(c1, between, v)
    ensures Good(c, between, v) && VaryingDepth(v.stack) >= VaryingDepth(c1.stack)
  {
  }

  lemma {:induction false} VisitedFromLabel(
    s: Stmt, b: Ctx, vs: seq<int>, c: Ctx, i: nat, k: nat, between: bool, v: Ctx)
    requires AtLabel(s, b, vs, c, i) && AllSound(s, VaryingBody, k) && Nested(b)
    requires VisitsInCases(s, c, i, k, between, v) && b.returned <= c.returned
    ensures Good(b, between, v) && VaryingDepth(v.stack) > VaryingDepth(b.stack)
    decreases s, 0, |s.cases| - i
  {
    hide Run, Visits, Good, Nested, EmitLabel, WellFormed;
    var c1 := EmitLabel(c, s.cases[i].caseLabel, s.cases[i].checkMask);
    var c2 := Run(s.cases[i].body, c1, k);
    LabelAndBody(s, b, vs, c, i, k);
    assert forall l: Lane :: l in FullMask(c1) ==> Active(c1, l);
    if between && (c.control == Here || c1.control != c.control) && v == c1 {
      LabelIsGood(s, b, vs, c, i, k);
    } else if c1.control == Here && Visits(s.cases[i].body, c1, k, between, v) {
      LabelReady(s, b, vs, c, i);
      LabelIsGood(s, b, vs, c, i, k);
      GoodIsNested(b, c1);
      VisitedIsGood(s.cases[i].body, VaryingBody, c1, k, between, v);
      GoodIsLater(b, c1, between, v);
    } else if c1.control != Here {
      RunsNothing(s.cases[i].body, c1, k);
      SkippedLabel(s, b, vs, c, c1, i);
      VisitedFromLabel(s, b, vs, c1, i + 1, k, between, v);
    } else if c2.control == Here {
      NextLabel(s, b, vs, c, c1, c2, i, k);
      VisitedFromLabel(s, b, vs, c2, i + 1, k, between, v);
    } else {
      InsideShape(s, b, false, LaneValues(vs), c2);
      NoVisitsAfter(s, b, false, LaneValues(vs), c2, i + 1, |s.cases|, k, between, v);
    }
  }

  /** The state after the code of a label that the path reaches. */
  lemma {:induction false} LabelIsGood(s: Stmt, b: Ctx, vs: seq<int>, c: Ctx, i: nat, k: nat)
    requires AtLabel(s, b, vs, c, i) && i < |s.cases| && AllSound(s, VaryingBody, k) && Nested(b)
    requires DistinctLabels(s.cases) && WellFormed(s.cases[i].body, VaryingBody) && b.returned <= c.returned
    ensures
      var c1 := EmitLabel(c, s.cases[i].caseLabel, s.cases[i].checkMask);
      Good(b, true, c1) && VaryingDepth(c1.stack) > VaryingDepth(b.stack)
  {
    hide Run, EmitLabel, WellFormed;
    LabelAndBody(s, b, vs, c, i, k);
    LabelReady(s, b, vs, c, i);
    var c1 := EmitLabel(c, s.cases[i].caseLabel, s.cases[i].checkMask);
    SwitchNests(s, b, false, LaneValues(vs), c1);
    InsideShape(s, b, false, LaneValues(vs), c1);
    assert forall l: Lane :: l in FullMask(c1) ==> Active(c1, l);
  }

  /** Labels that the path does not go through visit nothing. */
  lemma {:induction false} NoVisitsAfter(
    s: Stmt, b: Ctx, uniformFlow: bool, expr: SwitchValue, c: Ctx, i: nat, j: nat, k: nat, between: bool, v: Ctx)
    requires Inside(s, b, uniformFlow, expr, c) && DistinctLabels(s.cases) && i <= j <= |s.cases|
    requires c.control != Here && forall m: nat :: i <= m < j ==> c.control != At(CaseBlock(|b.stack|, m))
    ensures VisitsInCases(s, c, i, k, between, v) == VisitsInCases(s, c, j, k, between, v)
    decreases j - i
  {
    if i < j {
      LabelElsewhere(s, b, uniformFlow, expr, c, i);
      NoVisitsAfter(s, b, uniformFlow, expr, c, i + 1, j, k, between, v);
    }
  }

  lemma SwitchNests(s: Stmt, b: Ctx, uniformFlow: bool, expr: SwitchValue, c1: Ctx)
    requires Inside(s, b, uniformFlow, expr, c1) && Nested(b)
    requires forall l: Lane :: Active(c1, l) ==> Active(b, l)
    ensures Nested(c1)
  {
    InsideShape(s, b, uniformFlow, expr, c1);
    assert forall l: Lane :: l in FullMask(c1) ==> Active(c1, l);
    PushNests(b, c1);
  }

  lemma {:induction false} VisitedInUniformSwitch(s: Stmt, p: Place, b: Ctx, k: nat, between: bool, v: Ctx)
    requires s.UniformSwitch? && Ready(s, p, b) && Nested(b)
    requires
      VisitsInCases(s, EnterSwitch(b, s.uniformFlow, OneValue(s.selector(b.uniforms)), s.cases), 0, k, between, v)
    ensures Good(b, between, v)
    decreases s, 0, |s.cases| + 1
  {
    var expr := OneValue(s.selector(b.uniforms));
    var c0 := EnterSwitch(b, s.uniformFlow, expr, s.cases);
    var i := Target(s.cases, expr.v);
    FirstUniformLabel(s, b, s.uniformFlow, expr);
    SkipsLabels(s, b, s.uniformFlow, expr, c0, 0, i, k);
    NoVisitsAfter(s, b, s.uniformFlow, expr, c0, 0, i, k, between, v);
    forall j | 0 <= j < |s.cases| { BodySound(s.cases[j].body, UniformBody(s.uniformFlow), k); }
    VisitedFromUniformLabel(s, b, s.uniformFlow, expr, c0, i, k, between, v);
  }

  lemma {:induction false} VisitedFromUniformLabel(
    s: Stmt, b: Ctx, uniformFlow: bool, expr: SwitchValue, c: Ctx, i: nat, k: nat, between: bool, v: Ctx)
    requires AtUniformLabel(s, b, uniformFlow, expr, c, i) && AllSound(s, UniformBody(uniformFlow), k) && Nested(b)
    requires VisitsInCases(s, c, i, k, between, v)
    ensures Good(c, between, v)
    decreases s, 0, |s.cases| - i
  {
    hide Run, Visits, Nested, EmitLabel, WellFormed;
    var c1 := c.(control := Here);
    var c2 := Run(s.cases[i].body, c1, k);
    UniformLabel(s, b, uniformFlow, expr, c, i);
    UniformBodyRuns(s, b, uniformFlow, expr, c, i, k);
    VisitsStart(s.cases[i].body, c1, k, between);
    if Visits(s.cases[i].body, c1, k, between, v) {
      UniformLabelReady(s, b, uniformFlow, expr, c, i);
      assert forall l: Lane :: Active(c1, l) ==> l in FullMask(c);
      SwitchNests(s, b, uniformFlow, expr, c1);
      VisitedIsGood(s.cases[i].body, UniformBody(uniformFlow), c1, k, between, v);
    } else if c2.control == Here {
      VisitedFromUniformLabel(s, b, uniformFlow, expr, c2, i + 1, k, between, v);
    } else {
      InsideShape(s, b, uniformFlow, expr, c2);
      NoVisitsAfter(s, b, uniformFlow, expr, c2, i + 1, |s.cases|, k, between, v);
    }
  }

  /** Every state of a function's masked run, at loop tests and labels too, keeps the mask
      invariant: each lane of the function mask has at most one of the roles active,
      returned, broken and continued; the active lanes lie inside every saved mask, and
      saved masks shrink inward; returned lanes lie inside the function mask.  Before and
      after each statement the targets fit the control-flow stack, too. */
  lemma {:induction false} MasksStayConsistent(f: Call, k: nat, between: bool, v: Ctx)
    requires ValidCall(f)
    requires Visits(f.body, Entry(f.functionMask, f.vars, f.ret, f.u), k, between, v)
    ensures v.functionMask == f.functionMask && v.returned <= f.functionMask
    ensures MaskInv(v) && Nested(v) && (!between ==> Inv(v))
  {
    CallSimulates(f, k);
    VisitedIsGood(f.body, FunctionBody, Entry(f.functionMask, f.vars, f.ret, f.u), k, between, v);
  }
}
