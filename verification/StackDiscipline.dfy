/** Well-nesting: whatever a statement does to the masks, it leaves every target,
    saved pointer, entry mask, switch table and control-flow frame as it found
    them, on every path, jumps included. */
module StackDiscipline {
  import opened Lang
  import opened MaskContext
  import opened MaskedRun

  /** The lane masks exist wherever there is a target to go with them. */
  ghost predicate Linked(c: Ctx)
  {
    (c.breakTarget.Some? ==> c.breakLanes.Some?) && (c.continueTarget.Some? ==> c.continueLanes.Some?)
  }

  /** c1 differs from c only in masks, memory and control. */
  ghost predicate SameFrame(c: Ctx, c1: Ctx)
  {
    && c1.functionMask == c.functionMask && c1.uniforms == c.uniforms
    && c1.breakTarget == c.breakTarget && c1.continueTarget == c.continueTarget
    && c1.breakLanes.Some? == c.breakLanes.Some? && c1.continueLanes.Some? == c.continueLanes.Some?
    && c1.entryMask == c.entryMask && c1.sw == c.sw && c1.stack == c.stack
    && |c1.vars| == |c.vars| && |c1.ret| == |c.ret|
    && c.lost <= c1.lost && c.returned <= c1.returned
  }

  /** The end of a construct undoes its start, whatever its inside did to the masks. */
  lemma EndUndoesStart(c: Ctx, c1: Ctx, c2: Ctx)
    requires |c1.stack| == |c.stack| + 1 && Rest(c1.stack) == c.stack
    requires SameFrame(c1, c2.(entryMask := c1.entryMask))
    requires c.lost <= c1.lost && c.returned <= c1.returned
    requires c1.functionMask == c.functionMask && c1.uniforms == c.uniforms
    requires |c1.vars| == |c.vars| && |c1.ret| == |c.ret|
    requires
      var f := Top(c1.stack);
      if f.kind == IfFrame then
        c2.entryMask == c1.entryMask && SameFrame(c, c1.(stack := c.stack))
      else
        f.savedBreakTarget == c.breakTarget && f.savedContinueTarget == c.continueTarget
        && f.savedBreakLanes == c.breakLanes && f.savedContinueLanes == c.continueLanes
        && f.savedEntryMask == c.entryMask
        && (if f.kind == LoopFrame then c1.sw == c.sw else f.savedSwitch == c.sw)
    ensures SameFrame(c, Pop(c2))
    ensures Top(c1.stack).kind == IfFrame ==> SameFrame(c, EndIf(c2))
    ensures SameFrame(c, EndLoop(c2)) && SameFrame(c, EndSwitch(c2))
  {
  }

  lemma LabelKeepsFrame(c: Ctx, l: CaseLabel, checkMask: bool)
    ensures
      var c1 := EmitLabel(c, l, checkMask);
      c1 == c.(internal := c1.internal, control := c1.control)
  {
  }

  lemma {:induction false} Discipline(s: Stmt, c: Ctx, k: nat)
    requires Linked(c)
    ensures SameFrame(c, Run(s, c, k))
    decreases s, 1, 0
  {
    if c.control == Here {
      match s
      case Seq(first, second) =>
        Discipline(first, c, k);
        Discipline(second, Run(first, c, k), k);
      case UniformIf(_, _, _) => UniformIfDiscipline(s, c, k);
      case VaryingIf(_, _, _, _) => IfDiscipline(s, c, k);
      case Loop(_, _, _, _) => WholeLoopDiscipline(s, c, k);
      case VaryingSwitch(expr, cases) => SwitchDiscipline(s, c, false, LaneValues(SwitchLanes(c, expr)), k);
      case UniformSwitch(selector, uniformFlow, cases) =>
        SwitchDiscipline(s, c, uniformFlow, OneValue(selector(c.uniforms)), k);
      case Assign(_, _) =>
      case Break(coherent) => BreakKeepsFrame(c, coherent);
      case Continue(coherent) => ContinueKeepsFrame(c, coherent);
      case Return(value, coherent) => ReturnKeepsFrame(c, value, coherent);
    }
  }

  lemma JumpKeepsFrame(c: Ctx, target: Label)
    ensures var c1 := JumpIfAllLoopLanesAreDone(c, target); c1 == c.(control := c1.control)
  {
  }

  lemma BreakKeepsFrame(c: Ctx, coherent: bool)
    requires Linked(c) && c.control == Here
    ensures SameFrame(c, DoBreak(c, coherent))
  {
    if c.breakTarget.Some? {
      var c1 := c.(breakLanes := Some(c.internal + Lanes(c.breakLanes)), internal := {});
      JumpKeepsFrame(c1, if c.continueTarget.Some? then c.continueTarget.value else c.breakTarget.value);
    }
  }

  lemma ContinueKeepsFrame(c: Ctx, coherent: bool)
    requires Linked(c) && c.control == Here
    ensures SameFrame(c, DoContinue(c, coherent))
  {
  }

  lemma ReturnKeepsFrame(c: Ctx, value: Store -> int, coherent: bool)
    requires Linked(c) && c.control == Here
    ensures SameFrame(c, DoReturn(c, value, coherent))
  {
  }

  lemma {:induction false} UniformIfDiscipline(s: Stmt, c: Ctx, k: nat)
    requires s.UniformIf? && Linked(c) && c.control == Here
    ensures SameFrame(c, Run(s, c, k))
    decreases s, 0, 0
  {
    var side := if s.utest(c.uniforms) then s.thn else s.els;
    Discipline(side, StartUniformIf(c), k);
    EndUndoesStart(c, StartUniformIf(c), Run(side, StartUniformIf(c), k));
  }

  lemma {:induction false} WholeLoopDiscipline(s: Stmt, c: Ctx, k: nat)
    requires s.Loop? && Linked(c) && c.control == Here
    ensures SameFrame(c, Run(s, c, k))
    decreases s, 0, k + 1
  {
    var depth := |c.stack|;
    var c1 := StartLoop(c, BreakBlock(depth), ContinueBlock(depth), false);
    LoopDiscipline(s, c1, k, k);
    EndUndoesStart(c, c1, ArriveAt(RunLoop(s, c1, k, k), BreakBlock(depth)));
  }

  lemma {:induction false} IfDiscipline(s: Stmt, c: Ctx, k: nat)
    requires s.VaryingIf? && Linked(c) && c.control == Here
    ensures SameFrame(c, Run(s, c, k))
    decreases s, 0, 0
  {
    var c1 := TrueSide(s, c);
    Discipline(s.thn, c1, k);
    var c2 := RunSide(s.thn, c1, s.anyCheck, k);
    if c2.control != Here {
      EndUndoesStart(c, c1, c2);
    } else {
      Discipline(s.els, FalseSide(s, c, c2), k);
      EndUndoesStart(c, c1, RunSide(s.els, FalseSide(s, c, c2), s.anyCheck, k));
    }
  }

  lemma {:induction false} SwitchDiscipline(s: Stmt, c: Ctx, uniformFlow: bool, expr: SwitchValue, k: nat)
    requires (s.VaryingSwitch? || s.UniformSwitch?) && Linked(c) && c.control == Here
    ensures SameFrame(c, RunSwitch(s, c, uniformFlow, expr, k))
    decreases s, 0, |s.cases| + 1
  {
    var c1 := EnterSwitch(c, uniformFlow, expr, s.cases);
    CasesDiscipline(s, c1, 0, k);
    EndUndoesStart(c, c1, ArriveAt(RunCases(s, c1, 0, k), BreakBlock(|c.stack|)));
  }

  /** Around a loop only the block-entry mask moves, which EndLoop restores. */
  lemma {:induction false} LoopDiscipline(s: Stmt, c: Ctx, n: nat, k: nat)
    requires s.Loop? && Linked(c)
    ensures SameFrame(c, RunLoop(s, c, n, k).(entryMask := c.entryMask))
    decreases s, 0, n
  {
    if FullMask(Tested(s, c)) != {} && n > 0 {
      Discipline(s.body, BodyStart(s, c), k);
      var c2 := Run(s.body, BodyStart(s, c), k);
      if Stays(c2) {
        LoopDiscipline(s, NextHead(s, c2), n - 1, k);
      }
    }
  }

  lemma {:induction false} CasesDiscipline(s: Stmt, c: Ctx, i: nat, k: nat)
    requires (s.VaryingSwitch? || s.UniformSwitch?) && i <= |s.cases| && Linked(c)
    ensures SameFrame(c, RunCases(s, c, i, k))
    decreases s, 0, |s.cases| - i
  {
    if i < |s.cases| {
      var c1 := EmitLabel(c, s.cases[i].caseLabel, s.cases[i].checkMask);
      LabelKeepsFrame(c, s.cases[i].caseLabel, s.cases[i].checkMask);
      Discipline(s.cases[i].body, c1, k);
      CasesDiscipline(s, Run(s.cases[i].body, c1, k), i + 1, k);
    }
  }
}
