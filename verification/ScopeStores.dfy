/** Why a store needs no mask where the variable was declared at the same varying depth:
    within the scope, lanes that are off there have left it for good. */
module ScopeStores {
  import opened Lang
  import opened MaskContext
  import opened MaskedRun
  import opened StackDiscipline
  import opened LaneInvariant
  import opened SwitchLabels
  import opened SwitchSimulation
  import opened LaneSimulation
  import opened ReachableMasks

  /** In the masked run of s from c, w is v or a state that is visited after v.  States in
      varying constructs inside s are deeper than c, and not looked at for v. */
  ghost predicate Follows(s: Stmt, c: Ctx, k: nat, v: Ctx, w: Ctx)
    decreases s, 1, 0
  {
    || (v == c && Visits(s, c, k, false, w))
    || (Visits(s, c, k, false, v) && w == Run(s, c, k))
    || (c.control == Here && match s
          case Seq(first, second) =>
            var c1 := Run(first, c, k);
            Follows(first, c, k, v, w)
            || (c1.control == Here
                && (Follows(second, c1, k, v, w)
                    || (Visits(first, c, k, false, v) && Visits(second, c1, k, false, w))))
          case UniformIf(utest, thn, els) =>
            Follows(if utest(c.uniforms) then thn else els, StartUniformIf(c), k, v, w)
          case UniformSwitch(selector, uniformFlow, cases) =>
            FollowsInCases(s, EnterSwitch(c, uniformFlow, OneValue(selector(c.uniforms)), cases), 0, k, v, w)
          case _ => false)
  }

  ghost predicate FollowsInCases(s: Stmt, c: Ctx, i: nat, k: nat, v: Ctx, w: Ctx)
    requires IsSwitch(s) && i <= |s.cases|
    decreases s, 0, |s.cases| - i
  {
    i < |s.cases| &&
    var c1 := EmitLabel(c, s.cases[i].caseLabel, s.cases[i].checkMask);
    var c2 := Run(s.cases[i].body, c1, k);
    (c1.control == Here
     && (Follows(s.cases[i].body, c1, k, v, w)
         || (Visits(s.cases[i].body, c1, k, false, v) && VisitsInCases(s, c2, i + 1, k, false, w))))
    || FollowsInCases(s, c2, i + 1, k, v, w)
  }

  lemma SideIsReady(s: Stmt, p: Place, c: Ctx)
    requires s.UniformIf? && Ready(s, p, c) && Nested(c)
    ensures
      var side := if s.utest(c.uniforms) then s.thn else s.els;
      Ready(side, p, StartUniformIf(c)) && Nested(StartUniformIf(c))
    ensures VaryingDepth(StartUniformIf(c).stack) == VaryingDepth(c.stack)
  {
    UniformIfReady(s, p, c);
    PushedFrame(c, IfFrame, true, c.internal);
    PushNests(c, StartUniformIf(c));
  }

  /** The end of a uniform if does not touch the masks. */
  lemma EndOfUniformIf(s: Stmt, p: Place, c: Ctx, k: nat)
    requires s.UniformIf? && Ready(s, p, c)
    ensures
      var side := if s.utest(c.uniforms) then s.thn else s.els;
      FullMask(Run(s, c, k)) == FullMask(Run(side, StartUniformIf(c), k))
  {
    var side := if s.utest(c.uniforms) then s.thn else s.els;
    Discipline(side, StartUniformIf(c), k);
    PushedFrame(c, IfFrame, true, c.internal);
  }

  lemma {:induction false} StateIsGood(s: Stmt, p: Place, c: Ctx, k: nat, v: Ctx)
    requires Ready(s, p, c) && Nested(c) && Visits(s, c, k, false, v)
    ensures FullMask(v) <= FullMask(c) && VaryingDepth(v.stack) >= VaryingDepth(c.stack)
  {
    VisitedIsGood(s, p, c, k, false, v);
    hide Visits;
  }

  /** The lanes that are on at the end of s were on at every state of the same depth. */
  lemma {:induction false} StayOn(s: Stmt, p: Place, c: Ctx, k: nat, v: Ctx)
    requires Ready(s, p, c) && Nested(c) && Visits(s, c, k, false, v)
    requires VaryingDepth(v.stack) == VaryingDepth(c.stack)
    ensures FullMask(Run(s, c, k)) <= FullMask(v)
    decreases s, 1, 0
  {
    hide Nested, Run;
    EndIsGood(s, p, c, k);
    if v != c && v != Run(s, c, k) {
      match s
      case Seq(first, second) => StaysOnInSeq(s, p, c, k, v);
      case UniformIf(_, _, _) =>
        SideIsReady(s, p, c);
        EndOfUniformIf(s, p, c, k);
        StayOn(if s.utest(c.uniforms) then s.thn else s.els, p, StartUniformIf(c), k, v);
      case VaryingIf(_, _, _, _) => VisitedInVaryingIf(s, p, c, k, false, v);
      case Loop(_, _, _, _) => VisitedInLoop(s, p, c, k, false, v);
      case VaryingSwitch(_, _) => VisitedInVaryingSwitch(s, p, c, k, false, v);
      case UniformSwitch(_, _, _) => StaysOnInSwitch(s, p, c, k, v);
    }
  }

  lemma {:induction false} StaysOnInSeq(s: Stmt, p: Place, c: Ctx, k: nat, v: Ctx)
    requires s.Seq? && Ready(s, p, c) && Nested(c) && VaryingDepth(v.stack) == VaryingDepth(c.stack)
    requires
      Visits(s.first, c, k, false, v)
      || (Run(s.first, c, k).control == Here && Visits(s.second, Run(s.first, c, k), k, false, v))
    ensures FullMask(Run(s, c, k)) <= FullMask(v)
    decreases s, 0, 0
  {
    var c1 := Run(s.first, c, k);
    assert Run(s, c, k) == Run(s.second, c1, k);
    hide Visits, Run, Nested;
    if Visits(s.first, c, k, false, v) {
      StayOn(s.first, p, c, k, v);
    }
    if c1.control == Here {
      SecondIsReady(s, p, c, k);
      EndIsGood(s.second, p, c1, k);
      if Visits(s.second, c1, k, false, v) {
        StayOn(s.second, p, c1, k, v);
      }
    } else {
      RunsNothing(s.second, c1, k);
    }
  }

  lemma {:induction false} SecondIsReady(s: Stmt, p: Place, c: Ctx, k: nat)
    requires s.Seq? && Ready(s, p, c) && Nested(c) && Run(s.first, c, k).control == Here
    ensures
      var c1 := Run(s.first, c, k);
      Ready(s.second, p, c1) && Nested(c1) && VaryingDepth(c1.stack) == VaryingDepth(c.stack)
  {
    EndIsGood(s.first, p, c, k);
    Discipline(s.first, c, k);
    StaysReady(s.second, p, c, Run(s.first, c, k));
  }

  lemma {:induction false} StaysOnInSwitch(s: Stmt, p: Place, b: Ctx, k: nat, v: Ctx)
    requires s.UniformSwitch? && Ready(s, p, b) && Nested(b) && VaryingDepth(v.stack) == VaryingDepth(b.stack)
    requires
      VisitsInCases(s, EnterSwitch(b, s.uniformFlow, OneValue(s.selector(b.uniforms)), s.cases), 0, k, false, v)
    ensures FullMask(Run(s, b, k)) <= FullMask(v)
    decreases s, 0, |s.cases| + 1
  {
    var expr := OneValue(s.selector(b.uniforms));
    var c0 := EnterSwitch(b, s.uniformFlow, expr, s.cases);
    var i := Target(s.cases, expr.v);
    SwitchEnds(s, p, b, k);
    AtTarget(s, p, b, k);
    hide Run, Visits, Nested, WellFormed, Inside;
    NoVisitsAfter(s, b, s.uniformFlow, expr, c0, 0, i, k, false, v);
    if s.uniformFlow {
      StaysOnFromLabel(s, b, expr, c0, i, k, v);
    } else {
      VisitedFromUniformLabel(s, b, s.uniformFlow, expr, c0, i, k, false, v);
    }
  }

  /** Where a uniform switch starts. */
  lemma {:induction false} AtTarget(s: Stmt, p: Place, b: Ctx, k: nat)
    requires s.UniformSwitch? && Ready(s, p, b)
    ensures
      var expr := OneValue(s.selector(b.uniforms));
      var c0, i := EnterSwitch(b, s.uniformFlow, expr, s.cases), Target(s.cases, expr.v);
      && AtUniformLabel(s, b, s.uniformFlow, expr, c0, i) && AllSound(s, UniformBody(s.uniformFlow), k)
      && c0.breakLanes == Some({}) && Inside(s, b, s.uniformFlow, expr, c0) && DistinctLabels(s.cases)
      && RunCases(s, c0, 0, k) == RunCases(s, c0, i, k) && c0.control != Here
      && VaryingDepth(c0.stack) == VaryingDepth(b.stack) + (if s.uniformFlow then 0 else 1)
      && forall m: nat :: 0 <= m < i ==> c0.control != At(CaseBlock(|b.stack|, m))
  {
    var expr := OneValue(s.selector(b.uniforms));
    var c0 := EnterSwitch(b, s.uniformFlow, expr, s.cases);
    hide Run;
    FirstUniformLabel(s, b, s.uniformFlow, expr);
    InsideShape(s, b, s.uniformFlow, expr, c0);
    SkipsLabels(s, b, s.uniformFlow, expr, c0, 0, Target(s.cases, expr.v), k);
    forall j | 0 <= j < |s.cases| { BodySound(s.cases[j].body, UniformBody(s.uniformFlow), k); }
  }

  /** The end of a switch with uniform control flow does not touch the masks. */
  lemma {:induction false} SwitchEnds(s: Stmt, p: Place, b: Ctx, k: nat)
    requires s.UniformSwitch? && Ready(s, p, b)
    ensures s.uniformFlow ==>
        FullMask(Run(s, b, k)) ==
          FullMask(RunCases(s, EnterSwitch(b, true, OneValue(s.selector(b.uniforms)), s.cases), 0, k))
  {
    var expr := OneValue(s.selector(b.uniforms));
    var c0 := EnterSwitch(b, s.uniformFlow, expr, s.cases);
    hide Ready, RunCases;
    CasesDiscipline(s, c0, 0, k);
    InsideShape(s, b, s.uniformFlow, expr, RunCases(s, c0, 0, k));
  }

  lemma {:induction false} StaysOnFromLabel(s: Stmt, b: Ctx, expr: SwitchValue, c: Ctx, i: nat, k: nat, v: Ctx)
    requires AtUniformLabel(s, b, true, expr, c, i) && AllSound(s, UniformBody(true), k) && Nested(b)
    requires c.breakLanes == Some({}) && VisitsInCases(s, c, i, k, false, v)
    requires VaryingDepth(v.stack) == VaryingDepth(b.stack)
    ensures FullMask(RunCases(s, c, i, k)) <= FullMask(v)
    decreases s, 0, |s.cases| - i
  {
    hide Run, Visits, Nested, EmitLabel, WellFormed;
    var c1 := c.(control := Here);
    var c2 := Run(s.cases[i].body, c1, k);
    UniformLabel(s, b, true, expr, c, i);
    UniformBodyRuns(s, b, true, expr, c, i, k);
    LabelsShrink(s, b, expr, c, c2, i, k);
    if Visits(s.cases[i].body, c1, k, false, v) {
      UniformLabelReady(s, b, true, expr, c, i);
      assert forall l: Lane :: Active(c1, l) ==> l in FullMask(c);
      SwitchNests(s, b, true, expr, c1);
      InsideShape(s, b, true, expr, c1);
      StayOn(s.cases[i].body, UniformBody(true), c1, k, v);
    } else if c2.control == Here {
      StaysOnFromLabel(s, b, expr, c2, i + 1, k, v);
    } else {
      InsideShape(s, b, true, expr, c2);
      NoVisitsAfter(s, b, true, expr, c2, i + 1, |s.cases|, k, false, v);
    }
  }

  /** From one label on, fewer and fewer lanes are on. */
  lemma {:induction false} LabelsShrink(s: Stmt, b: Ctx, expr: SwitchValue, c: Ctx, c2: Ctx, i: nat, k: nat)
    requires AtUniformLabel(s, b, true, expr, c, i) && AllSound(s, UniformBody(true), k) && i < |s.cases|
    requires c.breakLanes == Some({}) && c2 == Run(s.cases[i].body, c.(control := Here), k)
    ensures RunCases(s, c, i, k) == RunCases(s, c2, i + 1, k)
    ensures FullMask(RunCases(s, c2, i + 1, k)) <= FullMask(c2)
    ensures c2.control == Here ==> c2.breakLanes == Some({})
  {
    hide Run, WellFormed;
    UniformLabel(s, b, true, expr, c, i);
    UniformBodyRuns(s, b, true, expr, c, i, k);
    if c2.control == Here {
      UniformCasesRun(s, b, true, expr, c2, i + 1, k);
      var e := RunCases(s, c2, i + 1, k);
      OnlyActiveStay(c2, e);
      assert forall l: Lane :: l in FullMask(e) ==> Active(e, l);
    } else {
      UniformLeavesLabels(s, b, true, expr, c.(control := Here), c2, i, k);
    }
  }

  // ---------- later states ----------

  lemma {:induction false} FollowsVisits(s: Stmt, c: Ctx, k: nat, v: Ctx, w: Ctx)
    requires Follows(s, c, k, v, w)
    ensures Visits(s, c, k, false, v)
    decreases s, 1, 0
  {
    hide Run;
    VisitsStart(s, c, k, false);
    if v != c && !Visits(s, c, k, false, v) {
      match s
      case Seq(first, second) =>
        if Follows(first, c, k, v, w) {
          FollowsVisits(first, c, k, v, w);
        } else if Follows(second, Run(first, c, k), k, v, w) {
          FollowsVisits(second, Run(first, c, k), k, v, w);
        }
      case UniformIf(utest, thn, els) =>
        FollowsVisits(if utest(c.uniforms) then thn else els, StartUniformIf(c), k, v, w);
      case UniformSwitch(selector, uniformFlow, cases) =>
        FollowsVisitsCases(s, EnterSwitch(c, uniformFlow, OneValue(selector(c.uniforms)), cases), 0, k, v, w);
    }
  }

  lemma {:induction false} FollowsVisitsCases(s: Stmt, c: Ctx, i: nat, k: nat, v: Ctx, w: Ctx)
    requires IsSwitch(s) && i <= |s.cases| && FollowsInCases(s, c, i, k, v, w)
    ensures VisitsInCases(s, c, i, k, false, v)
    decreases s, 0, |s.cases| - i
  {
    hide Run, EmitLabel, Follows, Visits;
    var c1 := EmitLabel(c, s.cases[i].caseLabel, s.cases[i].checkMask);
    if c1.control == Here && Follows(s.cases[i].body, c1, k, v, w) {
      FollowsVisits(s.cases[i].body, c1, k, v, w);
    } else if FollowsInCases(s, Run(s.cases[i].body, c1, k), i + 1, k, v, w) {
      FollowsVisitsCases(s, Run(s.cases[i].body, c1, k), i + 1, k, v, w);
    }
  }

  /** Within the run of s, a lane that is on in some state was on in every earlier state
      that is as deep as the start of s. */
  lemma {:induction false} LaterLanesWereOn(s: Stmt, p: Place, c: Ctx, k: nat, v: Ctx, w: Ctx)
    requires Ready(s, p, c) && Nested(c) && Follows(s, c, k, v, w)
    requires VaryingDepth(v.stack) == VaryingDepth(c.stack)
    ensures FullMask(w) <= FullMask(v)
    decreases s, 1, 0
  {
    hide Nested, Run, Visits;
    if v == c && Visits(s, c, k, false, w) {
      StateIsGood(s, p, c, k, w);
    } else if Visits(s, c, k, false, v) && w == Run(s, c, k) {
      StayOn(s, p, c, k, v);
    } else {
      match s
      case Seq(_, _) => LaterInSeq(s, p, c, k, v, w);
      case UniformIf(_, _, _) =>
        SideIsReady(s, p, c);
        LaterLanesWereOn(if s.utest(c.uniforms) then s.thn else s.els, p, StartUniformIf(c), k, v, w);
      case UniformSwitch(_, _, _) => LaterInSwitch(s, p, c, k, v, w);
    }
  }

  lemma {:induction false} LaterInSeq(s: Stmt, p: Place, c: Ctx, k: nat, v: Ctx, w: Ctx)
    requires s.Seq? && Ready(s, p, c) && Nested(c) && VaryingDepth(v.stack) == VaryingDepth(c.stack)
    requires
      var c1 := Run(s.first, c, k);
      Follows(s.first, c, k, v, w)
      || (c1.control == Here
          && (Follows(s.second, c1, k, v, w)
              || (Visits(s.first, c, k, false, v) && Visits(s.second, c1, k, false, w))))
    ensures FullMask(w) <= FullMask(v)
    decreases s, 0, 0
  {
    hide Nested, Run, Visits, Follows;
    var c1 := Run(s.first, c, k);
    if Follows(s.first, c, k, v, w) {
      LaterLanesWereOn(s.first, p, c, k, v, w);
    } else {
      SecondIsReady(s, p, c, k);
      if Follows(s.second, c1, k, v, w) {
        LaterLanesWereOn(s.second, p, c1, k, v, w);
      } else {
        StayOn(s.first, p, c, k, v);
        StateIsGood(s.second, p, c1, k, w);
      }
    }
  }

  lemma {:induction false} LaterInSwitch(s: Stmt, p: Place, b: Ctx, k: nat, v: Ctx, w: Ctx)
    requires s.UniformSwitch? && Ready(s, p, b) && Nested(b) && VaryingDepth(v.stack) == VaryingDepth(b.stack)
    requires
      FollowsInCases(s, EnterSwitch(b, s.uniformFlow, OneValue(s.selector(b.uniforms)), s.cases), 0, k, v, w)
    ensures FullMask(w) <= FullMask(v)
    decreases s, 0, |s.cases| + 1
  {
    var expr := OneValue(s.selector(b.uniforms));
    var c0 := EnterSwitch(b, s.uniformFlow, expr, s.cases);
    var i := Target(s.cases, expr.v);
    AtTarget(s, p, b, k);
    hide Run, Visits, Nested, WellFormed, Inside, Follows;
    FollowsNowhere(s, b, s.uniformFlow, expr, c0, 0, i, k, v, w);
    if s.uniformFlow {
      LaterFromLabel(s, b, expr, c0, i, k, v, w);
    } else {
      FollowsVisitsCases(s, c0, i, k, v, w);
      VisitedFromUniformLabel(s, b, s.uniformFlow, expr, c0, i, k, false, v);
    }
  }

  /** Labels that the path does not go through. */
  lemma {:induction false} FollowsNowhere(
    s: Stmt, b: Ctx, uniformFlow: bool, expr: SwitchValue, c: Ctx, i: nat, j: nat, k: nat, v: Ctx, w: Ctx)
    requires Inside(s, b, uniformFlow, expr, c) && DistinctLabels(s.cases) && i <= j <= |s.cases|
    requires c.control != Here && forall m: nat :: i <= m < j ==> c.control != At(CaseBlock(|b.stack|, m))
    ensures FollowsInCases(s, c, i, k, v, w) == FollowsInCases(s, c, j, k, v, w)
    decreases j - i
  {
    hide Follows, Visits;
    if i < j {
      LabelElsewhere(s, b, uniformFlow, expr, c, i);
      RunsNothing(s.cases[i].body, c, k);
      FollowsNowhere(s, b, uniformFlow, expr, c, i + 1, j, k, v, w);
    }
  }

  lemma {:induction false} LaterFromLabel(
    s: Stmt, b: Ctx, expr: SwitchValue, c: Ctx, i: nat, k: nat, v: Ctx, w: Ctx)
    requires AtUniformLabel(s, b, true, expr, c, i) && AllSound(s, UniformBody(true), k) && Nested(b)
    requires c.breakLanes == Some({}) && FollowsInCases(s, c, i, k, v, w)
    requires VaryingDepth(v.stack) == VaryingDepth(b.stack)
    ensures FullMask(w) <= FullMask(v)
    decreases s, 0, |s.cases| - i
  {
    hide Run, Visits, Nested, EmitLabel, WellFormed, Follows, InSwitch;
    var c1 := c.(control := Here);
    var c2 := Run(s.cases[i].body, c1, k);
    UniformLabel(s, b, true, expr, c, i);
    UniformBodyRuns(s, b, true, expr, c, i, k);
    LabelsShrink(s, b, expr, c, c2, i, k);
    if Follows(s.cases[i].body, c1, k, v, w)
       || (Visits(s.cases[i].body, c1, k, false, v) && VisitsInCases(s, c2, i + 1, k, false, w)) {
      LaterThanBody(s, b, expr, c, i, k, v, w);
    } else if c2.control == Here {
      LaterFromLabel(s, b, expr, c2, i + 1, k, v, w);
    } else {
      InsideShape(s, b, true, expr, c2);
      FollowsNowhere(s, b, true, expr, c2, i + 1, |s.cases|, k, v, w);
    }
  }

  lemma {:induction false} LaterThanBody(
    s: Stmt, b: Ctx, expr: SwitchValue, c: Ctx, i: nat, k: nat, v: Ctx, w: Ctx)
    requires AtUniformLabel(s, b, true, expr, c, i) && AllSound(s, UniformBody(true), k) && Nested(b)
    requires i < |s.cases| && VaryingDepth(v.stack) == VaryingDepth(b.stack)
    requires
      var c1 := c.(control := Here);
      Follows(s.cases[i].body, c1, k, v, w)
      || (Visits(s.cases[i].body, c1, k, false, v)
          && VisitsInCases(s, Run(s.cases[i].body, c1, k), i + 1, k, false, w))
    ensures FullMask(w) <= FullMask(v)
    decreases s, 0, |s.cases| - i, 0
  {
    hide Run, Visits, Nested, EmitLabel, WellFormed, Follows, InSwitch;
    var c1 := c.(control := Here);
    var c2 := Run(s.cases[i].body, c1, k);
    UniformBodyRuns(s, b, true, expr, c, i, k);
    UniformLabelReady(s, b, true, expr, c, i);
    assert forall l: Lane :: Active(c1, l) ==> l in FullMask(c);
    SwitchNests(s, b, true, expr, c1);
    InsideShape(s, b, true, expr, c1);
    if Follows(s.cases[i].body, c1, k, v, w) {
      LaterLanesWereOn(s.cases[i].body, UniformBody(true), c1, k, v, w);
    } else {
      StayOn(s.cases[i].body, UniformBody(true), c1, k, v);
      if c2.control == Here {
        VisitedFromUniformLabel(s, b, true, expr, c2, i + 1, k, false, w);
      } else {
        InsideShape(s, b, true, expr, c2);
        NoVisitsAfter(s, b, true, expr, c2, i + 1, |s.cases|, k, false, w);
      }
    }
  }

  // ---------- stores without a mask ----------

  /** The store that is not masked. */
  function StoreEverywhere(c: Ctx, x: string, rhs: Store -> int): Ctx
  {
    c.(vars := seq(|c.vars|, l requires 0 <= l < |c.vars| => c.vars[l][x := rhs(c.vars[l])]))
  }

  /** For a variable that lives as long as s runs and a store to it at the depth at which s
      starts, a mask makes no difference in any lane that is on at any later state. */
  lemma {:induction false} UnmaskedStoreAgrees(
    s: Stmt, p: Place, c: Ctx, k: nat, v: Ctx, w: Ctx, x: string, rhs: Store -> int, l: Lane)
    requires Ready(s, p, c) && Nested(c) && Follows(s, c, k, v, w)
    requires VaryingDepth(v.stack) == VaryingDepth(c.stack) && l in FullMask(w) && l < |v.vars|
    ensures StoreEverywhere(v, x, rhs) == StoreVar(v, x, rhs).(vars := StoreEverywhere(v, x, rhs).vars)
    ensures StoreEverywhere(v, x, rhs).vars[l] == StoreVar(v, x, rhs).vars[l]
  {
    hide Nested, Follows;
    LaterLanesWereOn(s, p, c, k, v, w);
  }
}
