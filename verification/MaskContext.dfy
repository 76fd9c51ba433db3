/** The state of one dynamic path through the code that FunctionEmitContext emits:
    the emit-time bookkeeping (targets, control-flow stack, switch tables) next to
    the run-time mask memory that the emitted instructions read and write.  Each
    function here is what one FunctionEmitContext operation does to that state.

    A mask is the set of its lanes that are on.  `control` says where the path is:
    `Here` means the current block is being executed (bblock is non-null). */
module MaskContext {
  import opened Lang

  type Lane = nat

  type Mask = set<Lane>

  datatype Option<+T> = None | Some(value: T)

  datatype Label = Block(depth: nat, index: nat)

  datatype Control = Here | At(target: Label) | Exited | Stuck

  datatype SwitchValue = OneValue(v: int) | LaneValues(vs: seq<int>)

  type CaseTable = seq<(int, Label)>

  type NextTable = map<Option<Label>, Label>

  datatype SwitchState = SwitchState(
    expr: Option<SwitchValue>,
    defaultBlock: Option<Label>,
    cases: Option<CaseTable>,
    next: Option<NextTable>,
    wasUniform: bool)

  datatype FrameKind = IfFrame | LoopFrame | SwitchFrame

  /** One level of nested control flow, with what its end has to restore. */
  datatype Frame = Frame(
    kind: FrameKind,
    isUniform: bool,
    savedMask: Mask,
    savedBreakTarget: Option<Label>,
    savedContinueTarget: Option<Label>,
    savedBreakLanes: Option<Mask>,
    savedContinueLanes: Option<Mask>,
    savedEntryMask: Option<Mask>,
    savedSwitch: SwitchState)

  datatype Ctx = Ctx(
    functionMask: Mask,
    internal: Mask,
    returned: Mask,
    breakTarget: Option<Label>,
    continueTarget: Option<Label>,
    breakLanes: Option<Mask>,
    continueLanes: Option<Mask>,
    entryMask: Option<Mask>,
    sw: SwitchState,
    stack: seq<Frame>,
    control: Control,
    uniforms: Uniforms,
    vars: seq<Store>,   // one store per lane
    ret: seq<int>,      // the return-value memory, one slot per lane
    lost: Mask)         // observation only: lanes a loop was left with although they had continued

  const NoSwitch := SwitchState(None, None, None, None, false)

  // ---------- masks ----------

  /** The all-on mask of a gang of this width. */
  function Gang(width: nat): (g: Mask)
    ensures forall l: Lane :: l in g <==> l < width
  {
    if width == 0 then {} else Gang(width - 1) + {width - 1}
  }

  function AllOn(c: Ctx): Mask
  {
    Gang(|c.vars|)
  }

  function Not(c: Ctx, m: Mask): Mask
  {
    AllOn(c) - m
  }

  function FullMask(c: Ctx): Mask
  {
    c.internal * c.functionMask
  }

  /** The lanes in a mask cell, where a null pointer counts as all off. */
  function Lanes(cell: Option<Mask>): Mask
  {
    if cell.Some? then cell.value else {}
  }

  function SetInternalMask(c: Ctx, m: Mask): Ctx
  {
    c.(internal := m)
  }

  function SetInternalMaskAnd(c: Ctx, oldMask: Mask, test: Mask): Ctx
  {
    SetInternalMask(c, oldMask * test)
  }

  function SetInternalMaskAndNot(c: Ctx, oldMask: Mask, test: Mask): Ctx
  {
    SetInternalMask(c, oldMask * Not(c, test))
  }

  function SetBlockEntryMask(c: Ctx, m: Mask): Ctx
  {
    c.(entryMask := Some(m))
  }

  /** The lanes, on or off, whose variables satisfy a varying test. */
  function TestMask(c: Ctx, test: Store -> bool): Mask
  {
    set l: Lane | l < |c.vars| && test(c.vars[l])
  }

  /** A store of a varying value through the full mask. */
  function StoreVar(c: Ctx, x: string, rhs: Store -> int): Ctx
  {
    c.(vars := seq(|c.vars|, l requires 0 <= l < |c.vars| =>
        if l in FullMask(c) then c.vars[l][x := rhs(c.vars[l])] else c.vars[l]))
  }

  /** The return-value store, which the code masks with the internal mask only. */
  function StoreReturn(c: Ctx, value: Store -> int): Ctx
  {
    c.(ret := seq(|c.ret|, l requires 0 <= l < |c.ret| =>
        if l in c.internal && l < |c.vars| then value(c.vars[l]) else c.ret[l]))
  }

  function RestoreMaskGivenReturns(c: Ctx, oldMask: Mask): Ctx
  {
    if c.control != Here then c else SetInternalMask(c, oldMask * Not(c, c.returned))
  }

  // ---------- the control-flow stack ----------

  function Top(stack: seq<Frame>): Frame
    requires stack != []
  {
    stack[|stack| - 1]
  }

  function Rest(stack: seq<Frame>): seq<Frame>
    requires stack != []
  {
    stack[..|stack| - 1]
  }

  function VaryingDepth(stack: seq<Frame>): nat
  {
    if stack == [] then 0 else VaryingDepth(Rest(stack)) + (if Top(stack).isUniform then 0 else 1)
  }

  /** Is the innermost construct other than an if a switch? */
  predicate InSwitch(stack: seq<Frame>)
  {
    stack != [] && if Top(stack).kind == IfFrame then InSwitch(Rest(stack)) else Top(stack).kind == SwitchFrame
  }

  /** Is everything inside the innermost construct of this kind uniform? */
  predicate AllUniformUpTo(stack: seq<Frame>, kind: FrameKind)
  {
    stack == [] || Top(stack).kind == kind || (Top(stack).isUniform && AllUniformUpTo(Rest(stack), kind))
  }

  function MaskAtSwitchEntry(stack: seq<Frame>): Mask
  {
    if stack == [] then {}
    else if Top(stack).kind == SwitchFrame then Top(stack).savedMask
    else MaskAtSwitchEntry(Rest(stack))
  }

  /** An if only remembers the mask, a loop also its targets and lane masks, and a
      switch the labels as well. */
  function Push(c: Ctx, kind: FrameKind, isUniform: bool, savedMask: Mask): Ctx
  {
    c.(stack := c.stack + [
      if kind == IfFrame then Frame(kind, isUniform, savedMask, None, None, None, None, Some(savedMask), NoSwitch)
      else Frame(kind, isUniform, savedMask, c.breakTarget, c.continueTarget, c.breakLanes, c.continueLanes,
                 c.entryMask, if kind == LoopFrame then NoSwitch else c.sw)])
  }

  function Pop(c: Ctx): Ctx
  {
    if c.stack == [] then c
    else
      var f := Top(c.stack);
      var c1 := c.(stack := Rest(c.stack));
      if f.kind == IfFrame then c1 else PopTargets(c1, f)
  }

  function PopTargets(c1: Ctx, f: Frame): Ctx
  {
    var c2 := c1.(breakTarget := f.savedBreakTarget, continueTarget := f.savedContinueTarget,
                  breakLanes := f.savedBreakLanes, continueLanes := f.savedContinueLanes,
                  entryMask := f.savedEntryMask);
    if f.kind == LoopFrame then c2 else c2.(sw := f.savedSwitch)
  }

  // ---------- if ----------

  function StartUniformIf(c: Ctx): Ctx
  {
    Push(c, IfFrame, true, c.internal)
  }

  function StartVaryingIf(c: Ctx, oldMask: Mask): Ctx
  {
    Push(c, IfFrame, false, oldMask)
  }

  function EndIf(c: Ctx): Ctx
  {
    var c1 := Pop(c);
    if c.stack == [] || Top(c.stack).isUniform || c.control != Here then c1
    else
      var c2 := RestoreMaskGivenReturns(c1, Top(c.stack).savedMask);
      if c2.continueLanes.None? && c2.breakLanes.None? then c2
      else SetInternalMask(c2, c2.internal * Not(c2, Lanes(c2.continueLanes) + Lanes(c2.breakLanes)))
  }

  // ---------- loop ----------

  function StartLoop(c: Ctx, bt: Label, ct: Label, uniformCF: bool): Ctx
  {
    var cell := if uniformCF then None else Some({});
    Push(c, LoopFrame, uniformCF, c.internal).(
      breakLanes := cell, continueLanes := cell, breakTarget := Some(bt), continueTarget := Some(ct),
      entryMask := None)
  }

  function EndLoop(c: Ctx): Ctx
  {
    if c.stack == [] || Top(c.stack).isUniform then Pop(c)
    else RestoreMaskGivenReturns(Pop(c), Top(c.stack).savedMask)
  }

  function RestoreContinuedLanes(c: Ctx): Ctx
  {
    if c.continueLanes.None? then c
    else SetInternalMask(c, c.internal + c.continueLanes.value).(continueLanes := Some({}))
  }

  function ClearBreakLanes(c: Ctx): Ctx
  {
    if c.breakLanes.None? then c else c.(breakLanes := Some({}))
  }

  // ---------- break, continue, return ----------

  /** A break here jumps out of an enclosing switch, or of an enclosing loop. */
  predicate BreakJumpsFromSwitch(c: Ctx)
  {
    InSwitch(c.stack) && c.sw.wasUniform && AllUniformUpTo(c.stack, SwitchFrame)
  }

  predicate BreakJumpsFromLoop(c: Ctx)
  {
    !InSwitch(c.stack) && AllUniformUpTo(c.stack, LoopFrame)
  }

  function FinishedLanes(c: Ctx): Mask
  {
    if c.breakLanes.None? then Lanes(c.continueLanes) * c.functionMask
    else (c.returned + c.breakLanes.value + Lanes(c.continueLanes)) * c.functionMask
  }

  function JumpIfAllLoopLanesAreDone(c: Ctx, target: Label): Ctx
  {
    if FinishedLanes(c) == Lanes(c.entryMask) then c.(control := At(target)) else c
  }

  function DoBreak(c: Ctx, coherent: bool): Ctx
  {
    if c.breakTarget.None? || c.control != Here then c
    else if BreakJumpsFromSwitch(c) then c.(control := At(c.breakTarget.value))
    else if BreakJumpsFromLoop(c) then c.(control := At(c.breakTarget.value))
    else
      var c1 := c.(breakLanes := Some(c.internal + Lanes(c.breakLanes)), internal := {});
      if !coherent then c1
      else if c.continueTarget.Some? then JumpIfAllLoopLanesAreDone(c1, c.continueTarget.value)
      else JumpIfAllLoopLanesAreDone(c1, c.breakTarget.value)
  }

  function DoContinue(c: Ctx, coherent: bool): Ctx
  {
    if c.continueTarget.None? || c.control != Here then c
    else if AllUniformUpTo(c.stack, LoopFrame) then c.(control := At(c.continueTarget.value))
    else
      var c1 := c.(continueLanes := Some(c.internal + Lanes(c.continueLanes)), internal := {});
      if coherent then JumpIfAllLoopLanesAreDone(c1, c.continueTarget.value) else c1
  }

  function DoReturn(c: Ctx, value: Store -> int, coherent: bool): Ctx
  {
    if c.control != Here then c
    else
      var c1 := StoreReturn(c, value);
      if VaryingDepth(c1.stack) == 0 then c1.(control := Exited)
      else
        var returned' := c1.returned + FullMask(c1);
        if coherent && c1.functionMask == returned' then c1.(control := Exited)
        else c1.(returned := returned', internal := {})
  }

  // ---------- switch ----------

  function StartSwitch(c: Ctx, uniformCF: bool, bbBreak: Label): Ctx
  {
    Push(c, SwitchFrame, uniformCF, c.internal).(
      breakLanes := Some({}), breakTarget := Some(bbBreak),
      continueLanes := None, continueTarget := None, entryMask := None,
      sw := NoSwitch.(wasUniform := c.sw.wasUniform))
  }

  function EndSwitch(c: Ctx): Ctx
  {
    if c.stack == [] || Top(c.stack).isUniform then Pop(c)
    else RestoreMaskGivenReturns(Pop(c), Top(c.stack).savedMask)
  }

  /** The block that a uniform switch instruction goes to. */
  function SwitchDestination(v: int, bbDefault: Label, cases: CaseTable): Label
  {
    if cases == [] then bbDefault
    else if cases[0].0 == v then cases[0].1
    else SwitchDestination(v, bbDefault, cases[1..])
  }

  function SwitchInst(c: Ctx, expr: SwitchValue, bbDefault: Label, cases: CaseTable, next: NextTable): Ctx
  {
    var c1 := c.(sw := SwitchState(Some(expr), Some(bbDefault), Some(cases), Some(next), expr.OneValue?));
    if c.control != Here then c1
    else if expr.OneValue? then c1.(control := At(SwitchDestination(expr.v, bbDefault, cases)))
    else
      var c2 := SetInternalMask(c1, {});
      if None in next then c2.(control := At(next[None])) else c2
  }

  /** Control arrives at a label by falling into it or by a jump to it. */
  function ArriveAt(c: Ctx, block: Label): Ctx
  {
    if c.control == At(block) then c.(control := Here) else c
  }

  /** The lanes, on or off, whose switch value is v. */
  function MatchMask(c: Ctx, v: int): Mask
  {
    match c.sw.expr
    case Some(LaneValues(vs)) => set l: Lane | l < |vs| && vs[l] == v
    case _ => {}
  }

  function AnyCaseMask(c: Ctx, cases: CaseTable): Mask
  {
    if cases == [] then {} else MatchMask(c, cases[0].0) + AnyCaseMask(c, cases[1..])
  }

  function AddSwitchMaskCheck(c: Ctx, block: Label, mask: Mask): Ctx
  {
    if mask == {} && c.sw.next.Some? && Some(block) in c.sw.next.value
    then c.(control := At(c.sw.next.value[Some(block)]))
    else c
  }

  function TurnOnAtLabel(c: Ctx, block: Label, lanes: Mask, checkMask: bool): Ctx
  {
    var c1 := SetInternalMask(c, c.internal + lanes);
    if checkMask then AddSwitchMaskCheck(c1, block, c1.internal) else c1
  }

  function EmitDefaultLabel(c: Ctx, checkMask: bool): Ctx
  {
    if !InSwitch(c.stack) || c.sw.defaultBlock.None? then c
    else
      var block := c.sw.defaultBlock.value;
      var c1 := ArriveAt(c, block);
      if c1.control != Here || c.sw.wasUniform then c1
      else
        var cases := if c.sw.cases.Some? then c.sw.cases.value else [];
        TurnOnAtLabel(c1, block, MaskAtSwitchEntry(c1.stack) * Not(c1, AnyCaseMask(c1, cases)), checkMask)
  }

  function FindCase(cases: CaseTable, v: int): Option<Label>
  {
    if cases == [] then None
    else if cases[0].0 == v then Some(cases[0].1)
    else FindCase(cases[1..], v)
  }

  function EmitCaseLabel(c: Ctx, v: int, checkMask: bool): Ctx
  {
    var found := if c.sw.cases.Some? then FindCase(c.sw.cases.value, v) else None;
    if !InSwitch(c.stack) || found.None? then c
    else
      var c1 := ArriveAt(c, found.value);
      if c1.control != Here || c.sw.wasUniform then c1
      else TurnOnAtLabel(c1, found.value, MaskAtSwitchEntry(c.stack) * MatchMask(c, v), checkMask)
  }
}
