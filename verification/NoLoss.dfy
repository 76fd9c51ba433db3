/** A syntactic condition under which no break jump ever leaves a lane behind. */
module NoLoss {
  import opened Lang
  import opened MaskContext
  import opened MaskedRun
  import opened StackDiscipline
  import opened LaneInvariant
  import opened LoopSimulation
  import opened SwitchLabels
  import opened SwitchSimulation

  /** May the end of s be reached with lanes parked in continueLanes?  `direct` says
      that everything between s and the innermost loop is uniform. */
  predicate Parks(s: Stmt, direct: bool)
  {
    match s
    case Seq(first, second) => Parks(first, direct) || Parks(second, direct)
    case UniformIf(_, thn, els) => Parks(thn, direct) || Parks(els, direct)
    case VaryingIf(_, thn, els, _) => Parks(thn, false) || Parks(els, false)
    case Continue(_) => !direct
    case _ => false
  }

  /** No break of a loop by a plain jump comes after a continue that parks lanes. */
  predicate JumpsAreSafe(s: Stmt, direct: bool, parked: bool)
  {
    match s
    case Seq(first, second) =>
      JumpsAreSafe(first, direct, parked) && JumpsAreSafe(second, direct, parked || Parks(first, direct))
    case UniformIf(_, thn, els) => JumpsAreSafe(thn, direct, parked) && JumpsAreSafe(els, direct, parked)
    case VaryingIf(_, thn, els, _) =>
      JumpsAreSafe(thn, false, parked) && JumpsAreSafe(els, false, parked || Parks(thn, false))
    case Loop(_, _, _, body) => JumpsAreSafe(body, true, false)
    case Break(_) => direct ==> !parked
    case VaryingSwitch(_, cases) =>
      DistinctLabels(cases) && forall i :: 0 <= i < |cases| ==> JumpsAreSafe(cases[i].body, false, true)
    case UniformSwitch(_, _, cases) =>
      DistinctLabels(cases) && forall i :: 0 <= i < |cases| ==> JumpsAreSafe(cases[i].body, false, true)
    case _ => true
  }

  ghost predicate NoneParked(c: Ctx)
  {
    Lanes(c.continueLanes) * c.functionMask == {}
  }

  ghost predicate Starts(s: Stmt, c: Ctx, direct: bool, parked: bool)
  {
    && TargetInv(c) && c.control == Here && JumpsAreSafe(s, direct, parked)
    && (direct ==> c.continueTarget.Some?)
    && (c.continueTarget.Some? ==> direct == BreakJumpsFromLoop(c))
    && (parked || NoneParked(c))
  }

  ghost predicate Lands(c: Ctx, c1: Ctx)
  {
    c1.control.At? ==> Some(c1.control.target) == c.breakTarget || Some(c1.control.target) == c.continueTarget
  }

  /** Nothing is lost inside, and the path reaches the loop's break target, or the
      end of s if s parks nothing, with nobody parked. */
  ghost predicate Keeps(s: Stmt, c: Ctx, c1: Ctx, direct: bool, parked: bool)
  {
    && c1.lost == c.lost && Lands(c, c1)
    && (c.continueTarget.Some? && c1.control.At? && Some(c1.control.target) != c.continueTarget ==> NoneParked(c1))
    && (c1.control == Here && !parked && !Parks(s, direct) ==> NoneParked(c1))
  }

  lemma {:induction false} NothingLost(s: Stmt, c: Ctx, direct: bool, parked: bool, k: nat)
    requires Starts(s, c, direct, parked)
    ensures Keeps(s, c, Run(s, c, k), direct, parked)
    decreases s, 1, 0
  {
    match s
    case Assign(_, _) =>
    case Seq(_, _) => NothingLostInSeq(s, c, direct, parked, k);
    case UniformIf(_, _, _) => NothingLostInIf(s, c, direct, parked, k);
    case VaryingIf(_, _, _, _) => NothingLostInVaryingIf(s, c, direct, parked, k);
    case Loop(_, _, _, _) => NothingLostInWholeLoop(s, c, direct, parked, k);
    case Break(coherent) => NothingLostInBreak(c, coherent, direct, parked);
    case Continue(_) =>
    case Return(_, _) =>
    case VaryingSwitch(expr, _) =>
      NothingLostInSwitch(s, c, false, LaneValues(SwitchLanes(c, expr)), k);
    case UniformSwitch(selector, uniformFlow, _) =>
      NothingLostInSwitch(s, c, uniformFlow, OneValue(selector(c.uniforms)), k);
  }

  lemma NothingLostInBreak(c: Ctx, coherent: bool, direct: bool, parked: bool)
    requires Starts(Break(coherent), c, direct, parked)
    ensures Keeps(Break(coherent), c, DoBreak(c, coherent), direct, parked)
  {
  }

  lemma {:induction false} NothingLostInSeq(s: Stmt, c: Ctx, direct: bool, parked: bool, k: nat)
    requires s.Seq? && Starts(s, c, direct, parked)
    ensures Keeps(s, c, Run(s, c, k), direct, parked)
    decreases s, 0, 0
  {
    var c1 := Run(s.first, c, k);
    Discipline(s.first, c, k);
    NothingLost(s.first, c, direct, parked, k);
    if c1.control == Here {
      NothingLost(s.second, c1, direct, parked || Parks(s.first, direct), k);
    }
  }

  lemma {:induction false} NothingLostInIf(s: Stmt, c: Ctx, direct: bool, parked: bool, k: nat)
    requires s.UniformIf? && Starts(s, c, direct, parked)
    ensures Keeps(s, c, Run(s, c, k), direct, parked)
    decreases s, 0, 0
  {
    var side := if s.utest(c.uniforms) then s.thn else s.els;
    PushedFrame(c, IfFrame, true, c.internal);
    NothingLost(side, StartUniformIf(c), direct, parked, k);
    Discipline(side, StartUniformIf(c), k);
  }

  lemma {:induction false} NothingLostOnSide(side: Stmt, c: Ctx, parked: bool, anyCheck: bool, k: nat)
    requires Starts(side, c, false, parked)
    ensures Keeps(side, c, RunSide(side, c, anyCheck, k), false, parked)
    ensures SameFrame(c, RunSide(side, c, anyCheck, k))
    decreases side, 2, 0
  {
    NothingLost(side, c, false, parked, k);
    Discipline(side, c, k);
  }

  lemma EndIfKeeps(c: Ctx)
    ensures EndIf(c).control == c.control && EndIf(c).lost == c.lost
    ensures c.stack != [] && Top(c.stack).kind == IfFrame ==> EndIf(c).continueLanes == c.continueLanes
    ensures EndIf(c).functionMask == c.functionMask
  {
  }

  lemma {:induction false} NothingLostInVaryingIf(s: Stmt, c: Ctx, direct: bool, parked: bool, k: nat)
    requires s.VaryingIf? && Starts(s, c, direct, parked)
    ensures Keeps(s, c, Run(s, c, k), direct, parked)
    decreases s, 0, 0
  {
    PushedFrame(c, IfFrame, false, c.internal);
    var c1 := TrueSide(s, c);
    var c2 := RunSide(s.thn, c1, s.anyCheck, k);
    NothingLostOnSide(s.thn, c1, parked, s.anyCheck, k);
    EndIfKeeps(c2);
    if c2.control == Here {
      var c3 := FalseSide(s, c, c2);
      NothingLostOnSide(s.els, c3, parked || Parks(s.thn, false), s.anyCheck, k);
      EndIfKeeps(RunSide(s.els, c3, s.anyCheck, k));
    }
  }

  // ---------- loops ----------

  ghost predicate LoopStarts(s: Stmt, c: Ctx)
  {
    && s.Loop? && JumpsAreSafe(s.body, true, false)
    && TargetInv(c.(entryMask := Some({}))) && c.control == Here
    && c.continueTarget.Some? && c.continueLanes == Some({}) && BreakJumpsFromLoop(c)
  }

  lemma {:induction false} NothingLostInLoop(s: Stmt, c: Ctx, n: nat, k: nat)
    requires LoopStarts(s, c)
    ensures RunLoop(s, c, n, k).lost == c.lost
    ensures var c1 := RunLoop(s, c, n, k); c1.control.At? ==> Some(c1.control.target) == c.breakTarget
    decreases s, 0, n
  {
    if FullMask(Tested(s, c)) != {} && n > 0 {
      var c1 := BodyStart(s, c);
      var c2 := Run(s.body, c1, k);
      assert Starts(s.body, c1, true, false);
      NothingLost(s.body, c1, true, false, k);
      Discipline(s.body, c1, k);
      if Stays(c2) {
        NextLoopStarts(s, c, c2);
        NothingLostInLoop(s, NextHead(s, c2), n - 1, k);
      }
    }
  }

  lemma NextLoopStarts(s: Stmt, c: Ctx, c2: Ctx)
    requires LoopStarts(s, c) && SameFrame(BodyStart(s, c), c2)
    ensures LoopStarts(s, NextHead(s, c2)) && NextHead(s, c2).lost == c2.lost
  {
  }

  lemma {:induction false} NothingLostInWholeLoop(s: Stmt, c: Ctx, direct: bool, parked: bool, k: nat)
    requires s.Loop? && Starts(s, c, direct, parked)
    ensures Keeps(s, c, Run(s, c, k), direct, parked)
    decreases s, 0, k + 1
  {
    var c0 := StartLoop(c, BreakBlock(|c.stack|), ContinueBlock(|c.stack|), false);
    PushedFrame(c, LoopFrame, false, c.internal);
    NothingLostInLoop(s, c0, k, k);
    LoopDiscipline(s, c0, k, k);
    LoopRestores(c, RunLoop(s, c0, k, k));
  }

  lemma LoopRestores(c: Ctx, c1: Ctx)
    requires c1.stack == StartLoop(c, BreakBlock(|c.stack|), ContinueBlock(|c.stack|), false).stack
    ensures
      var c2 := EndLoop(ArriveAt(c1, BreakBlock(|c.stack|)));
      c2.continueLanes == c.continueLanes && c2.lost == c1.lost && c2.functionMask == c1.functionMask
      && c2.control == if c1.control == At(BreakBlock(|c.stack|)) then Here else c1.control
  {
    PushedFrame(c, LoopFrame, false, c.internal);
  }

  // ---------- switches ----------

  ghost predicate CasesStart(s: Stmt, b: Ctx, uniformFlow: bool, expr: SwitchValue, c: Ctx, i: nat)
  {
    && Inside(s, b, uniformFlow, expr, c) && i <= |s.cases| && DistinctLabels(s.cases)
    && (forall j :: 0 <= j < |s.cases| ==> JumpsAreSafe(s.cases[j].body, false, true))
    && (c.control.At? ==>
          c.control.target == BreakBlock(|b.stack|)
          || (c.control.target.depth == |b.stack| && i + 2 <= c.control.target.index < |s.cases| + 2))
  }

  lemma {:induction false} NothingLostInSwitch(s: Stmt, c: Ctx, uniformFlow: bool, expr: SwitchValue, k: nat)
    requires IsSwitch(s) && TargetInv(c) && c.control == Here && DistinctLabels(s.cases)
    requires forall j :: 0 <= j < |s.cases| ==> JumpsAreSafe(s.cases[j].body, false, true)
    ensures
      var c1 := RunSwitch(s, c, uniformFlow, expr, k);
      c1.lost == c.lost && c1.continueLanes == c.continueLanes && !c1.control.At?
      && c1.functionMask == c.functionMask
    decreases s, 0, |s.cases| + 2
  {
    var c0 := EnterSwitch(c, uniformFlow, expr, s.cases);
    FirstCasesStart(s, c, uniformFlow, expr);
    NothingLostInCases(s, c, uniformFlow, expr, c0, 0, k);
    CasesDiscipline(s, c0, 0, k);
    SwitchRestores(s, c, uniformFlow, expr, ArriveAt(RunCases(s, c0, 0, k), BreakBlock(|c.stack|)));
  }

  lemma FirstCasesStart(s: Stmt, c: Ctx, uniformFlow: bool, expr: SwitchValue)
    requires IsSwitch(s) && c.control == Here && DistinctLabels(s.cases)
    requires forall j :: 0 <= j < |s.cases| ==> JumpsAreSafe(s.cases[j].body, false, true)
    ensures
      var c0 := EnterSwitch(c, uniformFlow, expr, s.cases);
      CasesStart(s, c, uniformFlow, expr, c0, 0) && c0.lost == c.lost
  {
    if expr.OneValue? {
      DestinationIsTarget(s.cases, |c.stack|, expr.v);
    } else {
      FirstBlock(s.cases, |c.stack|);
    }
  }

  lemma SwitchRestores(s: Stmt, b: Ctx, uniformFlow: bool, expr: SwitchValue, c: Ctx)
    requires Inside(s, b, uniformFlow, expr, c)
    ensures EndSwitch(c).continueLanes == b.continueLanes && EndSwitch(c).lost == c.lost
    ensures EndSwitch(c).control == c.control && EndSwitch(c).functionMask == b.functionMask
  {
    SwitchFrameSaved(s, b, uniformFlow, expr, c);
    EndSwitchPops(b, uniformFlow, c);
  }

  /** A label leaves control here, or sends it on to the next label. */
  lemma LabelControl(s: Stmt, b: Ctx, uniformFlow: bool, expr: SwitchValue, c: Ctx, i: nat)
    requires Inside(s, b, uniformFlow, expr, c) && i < |s.cases| && DistinctLabels(s.cases)
    requires c.control == Here || c.control == At(CaseBlock(|b.stack|, i))
    ensures
      var c1 := EmitLabel(c, s.cases[i].caseLabel, s.cases[i].checkMask);
      c1.control == Here || c1.control == At(BlockAt(s.cases, |b.stack|, i + 1))
  {
    InsideShape(s, b, uniformFlow, expr, c);
    LabelBlock(s.cases, |b.stack|, i);
    NextBlock(s.cases, |b.stack|, i);
  }

  lemma {:induction false} NothingLostInCases(
    s: Stmt, b: Ctx, uniformFlow: bool, expr: SwitchValue, c: Ctx, i: nat, k: nat)
    requires CasesStart(s, b, uniformFlow, expr, c, i)
    ensures
      var c1 := RunCases(s, c, i, k);
      c1.lost == c.lost && (c1.control.At? ==> c1.control == At(BreakBlock(|b.stack|)))
    decreases s, 0, |s.cases| - i
  {
    if i < |s.cases| {
      var c1 := EmitLabel(c, s.cases[i].caseLabel, s.cases[i].checkMask);
      LabelKeepsFrame(c, s.cases[i].caseLabel, s.cases[i].checkMask);
      if c.control == Here || c.control == At(CaseBlock(|b.stack|, i)) {
        LabelControl(s, b, uniformFlow, expr, c, i);
        BodyInCases(s, b, uniformFlow, expr, c1, i, k);
      } else {
        LabelElsewhere(s, b, uniformFlow, expr, c, i);
        NothingLostInCases(s, b, uniformFlow, expr, c, i + 1, k);
      }
    }
  }

  lemma {:induction false} BodyInCases(
    s: Stmt, b: Ctx, uniformFlow: bool, expr: SwitchValue, c1: Ctx, i: nat, k: nat)
    requires CasesStart(s, b, uniformFlow, expr, c1.(control := Here), i) && i < |s.cases|
    requires c1.control == Here || c1.control == At(BlockAt(s.cases, |b.stack|, i + 1))
    ensures
      var c3 := RunCases(s, Run(s.cases[i].body, c1, k), i + 1, k);
      c3.lost == c1.lost && (c3.control.At? ==> c3.control == At(BreakBlock(|b.stack|)))
    decreases s, 0, |s.cases| - i, 0
  {
    var c2 := Run(s.cases[i].body, c1, k);
    InsideShape(s, b, uniformFlow, expr, c1);
    if c1.control == Here {
      NothingLost(s.cases[i].body, c1, false, true, k);
      Discipline(s.cases[i].body, c1, k);
      assert BlockAt(s.cases, |b.stack|, |s.cases|) == BreakBlock(|b.stack|);
    }
    assert CasesStart(s, b, uniformFlow, expr, c2, i + 1);
    NothingLostInCases(s, b, uniformFlow, expr, c2, i + 1, k);
  }
}
