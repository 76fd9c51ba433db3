/** Drives a FunctionEmitContext through a whole statement, the way the statement
    nodes do.  Execute is proved to be the masked run of MaskedRun, so everything
    proved of that run holds of the object, and to leave all of the object's
    bookkeeping, the allocated tables included, as it found it. */
module EmitProgram {
  import opened Lang
  import opened MaskContext
  import opened MaskedRun
  import opened StackDiscipline
  import opened SwitchLabels
  import opened LaneInvariant
  import opened GangTheorems
  import opened NoLoss
  import opened Shortcuts
  import opened EmitContext

  /** What the emitter's own assertions need at a statement. */
  ghost predicate Emits(c: Ctx)
  {
    && Linked(c) && (c.breakTarget.Some? ==> c.stack != [] && c.entryMask.Some?)
    && (c.continueTarget.Some? ==> c.breakTarget.Some?)
  }

  /** What they need at the head of a loop. */
  ghost predicate EmitsLoop(c: Ctx)
  {
    Linked(c) && c.breakTarget.Some? && c.continueTarget.Some? && c.stack != []
  }

  method Execute(ctx: FunctionEmitContext, s: Stmt, ghost p: Place, k: nat)
    requires ctx.Valid() && Emits(ctx.Abs()) && WellFormed(s, p)
    modifies ctx
    ensures ctx.Valid() && ctx.Abs() == Run(s, old(ctx.Abs()), k) && ctx.Books() == old(ctx.Books())
    decreases s, 2, 0
  {
    hide FunctionEmitContext.Valid, AbsStack, EndIf, DoBreak, DoContinue, DoReturn;
    if ctx.control != Here {
      return;
    }
    match s {
      case Assign(x, rhs) =>
        ctx.StoreVar(x, rhs);
      case Seq(first, second) =>
        ExecuteSeq(ctx, s, p, k);
      case UniformIf(_, _, _) =>
        ExecuteUniformIf(ctx, s, p, k);
      case VaryingIf(_, _, _, _) =>
        ExecuteVaryingIf(ctx, s, p, k);
      case Loop(_, _, _, _) =>
        ExecuteLoop(ctx, s, k);
      case Break(coherent) =>
        ctx.Break(coherent);
      case Continue(coherent) =>
        ctx.Continue(coherent);
      case Return(value, coherent) =>
        ctx.CurrentLanesReturned(value, coherent);
      case VaryingSwitch(expr, _) =>
        var vs := ctx.EvaluateSwitch(expr);
        ExecuteSwitch(ctx, s, p, false, LaneValues(vs), k);
      case UniformSwitch(selector, uniformFlow, _) =>
        ExecuteSwitch(ctx, s, p, uniformFlow, OneValue(selector(ctx.uniforms)), k);
    }
  }

  method ExecuteSeq(ctx: FunctionEmitContext, s: Stmt, ghost p: Place, k: nat)
    requires s.Seq? && ctx.Valid() && Emits(ctx.Abs()) && WellFormed(s, p) && ctx.control == Here
    modifies ctx
    ensures ctx.Valid() && ctx.Abs() == Run(s, old(ctx.Abs()), k) && ctx.Books() == old(ctx.Books())
    decreases s, 1, 0
  {
    Discipline(s.first, ctx.Abs(), k);
    Execute(ctx, s.first, p, k);
    Execute(ctx, s.second, p, k);
  }

  method ExecuteUniformIf(ctx: FunctionEmitContext, s: Stmt, ghost p: Place, k: nat)
    requires s.UniformIf? && ctx.Valid() && Emits(ctx.Abs()) && WellFormed(s, p) && ctx.control == Here
    modifies ctx
    ensures ctx.Valid() && ctx.Abs() == Run(s, old(ctx.Abs()), k) && ctx.Books() == old(ctx.Books())
    decreases s, 1, 0
  {
    hide FunctionEmitContext.Valid, AbsStack, MaskContext.EndIf;
    ctx.StartUniformIf();
    if s.utest(ctx.uniforms) {
      Execute(ctx, s.thn, p, k);
    } else {
      Execute(ctx, s.els, p, k);
    }
    ctx.EndIf();
  }

  method ExecuteVaryingIf(ctx: FunctionEmitContext, s: Stmt, ghost p: Place, k: nat)
    requires s.VaryingIf? && ctx.Valid() && Emits(ctx.Abs()) && WellFormed(s, p) && ctx.control == Here
    modifies ctx
    ensures ctx.Valid() && ctx.Abs() == Run(s, old(ctx.Abs()), k) && ctx.Books() == old(ctx.Books())
    decreases s, 1, 1
  {
    hide FunctionEmitContext.Valid, AbsStack, MaskContext.EndIf, TrueSide, FalseSide;
    ExecuteSides(ctx, s, p, k);
    ctx.EndIf();
  }

  /** Everything between the start and the end of a varying if. */
  method ExecuteSides(ctx: FunctionEmitContext, s: Stmt, ghost p: Place, k: nat)
    requires s.VaryingIf? && ctx.Valid() && Emits(ctx.Abs()) && WellFormed(s, p) && ctx.control == Here
    modifies ctx
    ensures ctx.Valid() && ctx.TopIs(IfFrame)
    ensures ctx.controlFlowInfo[..|ctx.controlFlowInfo| - 1] == old(ctx.controlFlowInfo)
    ensures ctx.Books() == old(ctx.Books()).(frames := ctx.controlFlowInfo)
    ensures
      var c := old(ctx.Abs());
      var c2 := RunSide(s.thn, TrueSide(s, c), s.anyCheck, k);
      ctx.Abs() == if c2.control == Here then RunSide(s.els, FalseSide(s, c, c2), s.anyCheck, k) else c2
    decreases s, 1, 0
  {
    hide LinksOK, AbsStack, TestMask;
    var oldMask := ctx.internalMask;
    var test := ctx.EvaluateTest(s.test);
    ctx.StartVaryingIf(oldMask);
    ctx.SetInternalMaskAnd(oldMask, test);
    ExecuteSide(ctx, s.thn, p.(jumps := false), s.anyCheck, k);
    if ctx.control == Here {
      ctx.SetInternalMaskAndNot(oldMask, test);
      ExecuteSide(ctx, s.els, p.(jumps := false), s.anyCheck, k);
    }
  }

  method ExecuteSide(ctx: FunctionEmitContext, side: Stmt, ghost p: Place, anyCheck: bool, k: nat)
    requires ctx.Valid() && Emits(ctx.Abs()) && WellFormed(side, p)
    modifies ctx
    ensures ctx.Valid() && ctx.Abs() == RunSide(side, old(ctx.Abs()), anyCheck, k) && ctx.Books() == old(ctx.Books())
    ensures SameFrame(old(ctx.Abs()), ctx.Abs())
    decreases side, 3, 0
  {
    Discipline(side, ctx.Abs(), k);
    var fullMask := ctx.GetFullMask();
    if anyCheck && fullMask == {} {
      return;
    }
    Execute(ctx, side, p, k);
  }

  lemma PoppedFrame(frames: seq<CFInfo>, f: CFInfo, frames1: seq<CFInfo>, f1: CFInfo)
    requires frames + [f] == frames1 + [f1]
    ensures frames == frames1 && f == f1
  {
    assert (frames + [f])[..|frames|] == frames && (frames1 + [f1])[..|frames1|] == frames1;
  }

  method ExecuteLoop(ctx: FunctionEmitContext, s: Stmt, k: nat)
    requires s.Loop? && ctx.Valid() && Emits(ctx.Abs()) && ctx.control == Here
    requires WellFormed(s.body, Place(true, true, true, false))
    modifies ctx
    ensures ctx.Valid() && ctx.Abs() == Run(s, old(ctx.Abs()), k) && ctx.Books() == old(ctx.Books())
    decreases s, 1, 0
  {
    hide FunctionEmitContext.Valid, AbsStack, RunLoop, MaskContext.EndLoop;
    AbsStackAt(ctx.controlFlowInfo, ctx.laneCells, ctx.tables);
    var depth := |ctx.controlFlowInfo|;
    ctx.StartLoop(BreakBlock(depth), ContinueBlock(depth), false);
    ghost var frames, top := ctx.controlFlowInfo, ctx.controlFlowInfo[depth];
    Iterate(ctx, s, k);
    ctx.SetCurrentBasicBlock(BreakBlock(depth));
    ctx.EndLoop();
    PoppedFrame(ctx.controlFlowInfo, frames[|frames| - 1], old(ctx.controlFlowInfo), top);
  }

  /** Test, leave if no lane is left, run the body, gather the lanes again, step. */
  method Iterate(ctx: FunctionEmitContext, s: Stmt, k: nat)
    requires s.Loop? && ctx.Valid() && EmitsLoop(ctx.Abs()) && WellFormed(s.body, Place(true, true, true, false))
    requires ctx.control == Here
    modifies ctx
    ensures ctx.Valid() && ctx.Abs() == RunLoop(s, old(ctx.Abs()), k, k)
    ensures ctx.Books() == old(ctx.Books()).(targets := ctx.targets)
    decreases s, 0, 1
  {
    hide FunctionEmitContext.Valid, AbsStack;
    ghost var c := ctx.Abs();
    var n, more := k, true;
    while more
      invariant ctx.Valid()
      invariant ctx.Books() == old(ctx.Books()).(targets := ctx.targets)
      invariant more ==> EmitsLoop(ctx.Abs()) && ctx.Abs().control == Here
      invariant RunLoop(s, c, k, k) == if more then RunLoop(s, ctx.Abs(), n, k) else ctx.Abs()
      decreases more, n
    {
      more := OneIteration(ctx, s, n, k);
      n := if more then n - 1 else 0;
    }
  }

  method OneIteration(ctx: FunctionEmitContext, s: Stmt, n: nat, k: nat) returns (more: bool)
    requires s.Loop? && ctx.Valid() && EmitsLoop(ctx.Abs()) && WellFormed(s.body, Place(true, true, true, false))
    requires ctx.control == Here
    modifies ctx
    ensures ctx.Valid() && ctx.Books() == old(ctx.Books()).(targets := ctx.targets)
    ensures more ==> n > 0 && EmitsLoop(ctx.Abs()) && ctx.Abs().control == Here
    ensures RunLoop(s, old(ctx.Abs()), n, k) == if more then RunLoop(s, ctx.Abs(), n - 1, k) else ctx.Abs()
    decreases s, 0, 0
  {
    hide LinksOK, AbsStack, TestMask;
    var test := ctx.EvaluateTest(s.test);
    ctx.SetInternalMaskAnd(ctx.internalMask, test);
    var fullMask := ctx.GetFullMask();
    if fullMask == {} {
      return false;
    }
    if n == 0 {
      ctx.SetControl(Stuck);
      return false;
    }
    ctx.SetBlockEntryMask(fullMask);
    Discipline(s.body, ctx.Abs(), k);
    Execute(ctx, s.body, Place(true, true, true, false), k);
    if ctx.control != Here && ctx.control != At(ctx.targets.continueTarget.value) {
      ctx.LeaveLoop();
      return false;
    }
    StepLoop(ctx, s);
    return true;
  }

  method StepLoop(ctx: FunctionEmitContext, s: Stmt)
    requires s.Loop? && ctx.Valid() && EmitsLoop(ctx.Abs())
    modifies ctx
    ensures ctx.Valid() && ctx.Abs() == NextHead(s, old(ctx.Abs())) && ctx.Books() == old(ctx.Books())
    ensures EmitsLoop(ctx.Abs()) && ctx.Abs().control == Here
  {
    ctx.SetControl(Here);
    ctx.RestoreContinuedLanes();
    ctx.ClearBreakLanes();
    ctx.StoreVar(s.stepVar, s.stepRhs);
  }

  // ---------- switch ----------

  function CasePlace(s: Stmt): Place
  {
    if s.UniformSwitch? then Place(true, false, true, s.uniformFlow) else Place(true, false, false, false)
  }

  method ExecuteSwitch(ctx: FunctionEmitContext, s: Stmt, ghost p: Place, uniformFlow: bool, expr: SwitchValue, k: nat)
    requires IsSwitch(s) && ctx.Valid() && Emits(ctx.Abs()) && WellFormed(s, p) && ctx.control == Here
    requires s.VaryingSwitch? == expr.LaneValues?
    modifies ctx
    ensures ctx.Valid() && ctx.Abs() == RunSwitch(s, old(ctx.Abs()), uniformFlow, expr, k)
    ensures ctx.Books() == old(ctx.Books())
    decreases s, 1, 0
  {
    hide FunctionEmitContext.Valid, AbsStack, RunCases, MaskContext.EndSwitch;
    ghost var b := ctx.Abs();
    AbsStackAt(ctx.controlFlowInfo, ctx.laneCells, ctx.tables);
    var depth := |ctx.controlFlowInfo|;
    BeginSwitch(ctx, s, uniformFlow, expr);
    ghost var frames, top := ctx.controlFlowInfo, ctx.controlFlowInfo[depth];
    ExecuteCases(ctx, s, b, uniformFlow, expr, k);
    ctx.SetCurrentBasicBlock(BreakBlock(depth));
    ctx.EndSwitch();
    PoppedFrame(ctx.controlFlowInfo, frames[|frames| - 1], old(ctx.controlFlowInfo), top);
  }

  method BeginSwitch(ctx: FunctionEmitContext, s: Stmt, uniformFlow: bool, expr: SwitchValue)
    requires IsSwitch(s) && ctx.Valid() && ctx.control == Here
    modifies ctx
    ensures ctx.Valid() && ctx.Abs() == EnterSwitch(old(ctx.Abs()), uniformFlow, expr, s.cases)
    ensures ctx.controlFlowInfo
        == old(ctx.controlFlowInfo + [CFInfo(SwitchFrame, uniformFlow, ctx.internalMask, ctx.targets, ctx.labels)])
    ensures ctx.tables.Keys == old(ctx.tables.Keys) + TablesOf(ctx.labels)
    ensures TablesOf(ctx.labels) !! old(ctx.tables.Keys)
  {
    AbsStackAt(ctx.controlFlowInfo, ctx.laneCells, ctx.tables);
    var depth := |ctx.controlFlowInfo|;
    ctx.StartSwitch(uniformFlow, BreakBlock(depth));
    var fullMask := ctx.GetFullMask();
    ctx.SetBlockEntryMask(fullMask);
    ctx.SwitchInst(expr, DefaultBlock(s.cases, depth), CaseBlocks(s.cases, depth, 0), NextBlocks(s.cases, depth));
  }

  method ExecuteCases(
    ctx: FunctionEmitContext, s: Stmt, ghost b: Ctx, ghost uniformFlow: bool, ghost expr: SwitchValue, k: nat)
    requires IsSwitch(s) && ctx.Valid() && Inside(s, b, uniformFlow, expr, ctx.Abs())
    requires DistinctLabels(s.cases) && s.VaryingSwitch? == expr.LaneValues?
    requires forall i :: 0 <= i < |s.cases| ==> WellFormed(s.cases[i].body, CasePlace(s))
    modifies ctx
    ensures ctx.Valid() && ctx.Abs() == RunCases(s, old(ctx.Abs()), 0, k) && ctx.Books() == old(ctx.Books())
    decreases s, 0, 1
  {
    ghost var c := ctx.Abs();
    for i := 0 to |s.cases|
      invariant ctx.Valid() && ctx.Books() == old(ctx.Books())
      invariant Inside(s, b, uniformFlow, expr, ctx.Abs())
      invariant RunCases(s, ctx.Abs(), i, k) == RunCases(s, c, 0, k)
    {
      ExecuteCase(ctx, s, i, b, uniformFlow, expr, k);
    }
  }

  method ExecuteCase(
    ctx: FunctionEmitContext, s: Stmt, i: nat, ghost b: Ctx, ghost uniformFlow: bool, ghost expr: SwitchValue, k: nat)
    requires IsSwitch(s) && ctx.Valid() && Inside(s, b, uniformFlow, expr, ctx.Abs())
    requires DistinctLabels(s.cases) && s.VaryingSwitch? == expr.LaneValues?
    requires i < |s.cases| && WellFormed(s.cases[i].body, CasePlace(s))
    modifies ctx
    ensures ctx.Valid() && ctx.Books() == old(ctx.Books()) && Inside(s, b, uniformFlow, expr, ctx.Abs())
    ensures
      var c1 := EmitLabel(old(ctx.Abs()), s.cases[i].caseLabel, s.cases[i].checkMask);
      ctx.Abs() == Run(s.cases[i].body, c1, k)
    decreases s, 0, 0
  {
    EmitLabelOf(ctx, s, i, b, uniformFlow, expr);
    assert Emits(ctx.Abs());
    Discipline(s.cases[i].body, ctx.Abs(), k);
    Execute(ctx, s.cases[i].body, CasePlace(s), k);
  }

  /** At each label of a switch the emitter's tables have the label's block. */
  lemma LabelOf(s: Stmt, b: Ctx, uniformFlow: bool, expr: SwitchValue, c: Ctx, i: nat)
    requires Inside(s, b, uniformFlow, expr, c) && i < |s.cases| && DistinctLabels(s.cases)
    requires s.VaryingSwitch? == expr.LaneValues?
    ensures c.sw.cases.Some?
    ensures s.cases[i].caseLabel.Value? ==>
        FindCase(c.sw.cases.value, s.cases[i].caseLabel.v) == Some(CaseBlock(|b.stack|, i))
    ensures s.cases[i].caseLabel == Default ==> c.sw.defaultBlock == Some(CaseBlock(|b.stack|, i))
    ensures LabelReady(c.sw, Some(CaseBlock(|b.stack|, i)), s.cases[i].checkMask)
    ensures Inside(s, b, uniformFlow, expr, EmitLabel(c, s.cases[i].caseLabel, s.cases[i].checkMask))
  {
    hide MaskContext.EmitCaseLabel, MaskContext.EmitDefaultLabel;
    InsideShape(s, b, uniformFlow, expr, c);
    LabelBlock(s.cases, |b.stack|, i);
    NextBlock(s.cases, |b.stack|, i);
    LabelKeepsFrame(c, s.cases[i].caseLabel, s.cases[i].checkMask);
  }

  method EmitLabelOf(
    ctx: FunctionEmitContext, s: Stmt, i: nat, ghost b: Ctx, ghost uniformFlow: bool, ghost expr: SwitchValue)
    requires IsSwitch(s) && ctx.Valid() && Inside(s, b, uniformFlow, expr, ctx.Abs())
    requires DistinctLabels(s.cases) && s.VaryingSwitch? == expr.LaneValues? && i < |s.cases|
    modifies ctx
    ensures ctx.Valid() && ctx.Books() == old(ctx.Books())
    ensures ctx.Abs() == EmitLabel(old(ctx.Abs()), s.cases[i].caseLabel, s.cases[i].checkMask)
    ensures Inside(s, b, uniformFlow, expr, ctx.Abs())
  {
    hide FunctionEmitContext.Valid, AbsStack, Inside, LabelReady, FindCase, InSwitch;
    hide MaskContext.EmitCaseLabel, MaskContext.EmitDefaultLabel;
    LabelOf(s, b, uniformFlow, expr, ctx.Abs(), i);
    match s.cases[i].caseLabel {
      case Value(v) => ctx.EmitCaseLabel(v, s.cases[i].checkMask);
      case Default => ctx.EmitDefaultLabel(s.cases[i].checkMask);
    }
  }

  // ---------- a whole function ----------

  /** Emits and runs a function: it is the masked run, it releases every table, and
      if its break jumps are safe each lane of the function mask ends exactly as in
      its own scalar run.  Without that condition this holds of each lane that no break
      jump left behind. */
  method ExecuteCall(f: Call, k: nat) returns (ctx: FunctionEmitContext)
    requires ValidCall(f)
    ensures fresh(ctx) && ctx.Valid() && ctx.Abs() == GangRun(f, k)
    ensures ctx.controlFlowInfo == [] && ctx.tables == map[]
    ensures |ctx.vars| == |f.vars| == |ctx.returnValues|
    ensures ctx.control != Stuck ==>
        forall l: Lane :: l in f.functionMask && l !in ctx.lost ==>
          AgreesWithLane(f, ctx.Abs(), l, LaneRun(f, l, k))
    ensures forall l: Lane :: l < |f.vars| && l !in f.functionMask ==> ctx.vars[l] == f.vars[l]
    ensures JumpsAreSafe(f.body, false, false) ==>
      && ctx.lost == {}
      && (ctx.control == Stuck <==> exists l: Lane :: l in f.functionMask && LaneRun(f, l, k).outcome == Unfinished)
  {
    hide LinksOK, AbsStack, JumpsAreSafe, WellFormed, RunLane, Run;
    ctx := new FunctionEmitContext(Some(f.functionMask), f.vars, f.ret, f.u);
    Execute(ctx, f.body, FunctionBody, k);
    GangEqualsLanes(f, k);
    if JumpsAreSafe(f.body, false, false) {
      SafeJumpsLoseNothing(f, k);
      StuckIffSomeLaneIs(f, k);
    }
  }
}
