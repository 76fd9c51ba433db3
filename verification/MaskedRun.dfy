/** How a whole statement drives the FunctionEmitContext operations: the masked
    run of one gang. */
module MaskedRun {
  import opened Lang
  import opened MaskContext

  function BreakBlock(depth: nat): Label { Block(depth, 0) }

  function ContinueBlock(depth: nat): Label { Block(depth, 1) }

  function CaseBlock(depth: nat, i: nat): Label { Block(depth, i + 2) }

  /** The (value, block) table of the case labels, in order. */
  function CaseBlocks(cases: seq<Case>, depth: nat, from: nat): CaseTable
    requires from <= |cases|
    decreases |cases| - from
  {
    if from == |cases| then []
    else
      var rest := CaseBlocks(cases, depth, from + 1);
      if cases[from].caseLabel.Value? then [(cases[from].caseLabel.v, CaseBlock(depth, from))] + rest else rest
  }

  /** The default block, or the block after the switch if there is no default label. */
  function DefaultBlock(cases: seq<Case>, depth: nat): Label
  {
    var i := FindLabel(cases, Default, 0);
    if i < |cases| then CaseBlock(depth, i) else BreakBlock(depth)
  }

  function BlockAt(cases: seq<Case>, depth: nat, i: nat): Label
  {
    if i < |cases| then CaseBlock(depth, i) else BreakBlock(depth)
  }

  /** The block following each label, and under None the first one, which is the block
      after the switch if there is no label. */
  function NextBlocks(cases: seq<Case>, depth: nat): NextTable
  {
    NextFrom(cases, depth, 0)[None := BlockAt(cases, depth, 0)]
  }

  function NextFrom(cases: seq<Case>, depth: nat, from: nat): NextTable
    requires from <= |cases|
    decreases |cases| - from
  {
    if from == |cases| then map[]
    else NextFrom(cases, depth, from + 1)[Some(CaseBlock(depth, from)) := BlockAt(cases, depth, from + 1)]
  }

  function EnterSwitch(c: Ctx, uniformFlow: bool, expr: SwitchValue, cases: seq<Case>): Ctx
  {
    var depth := |c.stack|;
    var c1 := StartSwitch(c, uniformFlow, BreakBlock(depth));
    SwitchInst(SetBlockEntryMask(c1, FullMask(c1)), expr,
               DefaultBlock(cases, depth), CaseBlocks(cases, depth, 0), NextBlocks(cases, depth))
  }

  function EmitLabel(c: Ctx, l: CaseLabel, checkMask: bool): Ctx
  {
    match l
    case Value(v) => EmitCaseLabel(c, v, checkMask)
    case Default => EmitDefaultLabel(c, checkMask)
  }

  /** The state at the start of the true side of a varying if. */
  ghost function TrueSide(s: Stmt, c: Ctx): Ctx
    requires s.VaryingIf?
  {
    SetInternalMaskAnd(StartVaryingIf(c, c.internal), c.internal, TestMask(c, s.test))
  }

  /** The state at the start of the false side, once the true side has run to c2. */
  ghost function FalseSide(s: Stmt, c: Ctx, c2: Ctx): Ctx
    requires s.VaryingIf?
  {
    SetInternalMaskAndNot(c2, c.internal, TestMask(c, s.test))
  }

  ghost function Tested(s: Stmt, c: Ctx): Ctx
    requires s.Loop?
  {
    SetInternalMaskAnd(c, c.internal, TestMask(c, s.test))
  }

  ghost function BodyStart(s: Stmt, c: Ctx): Ctx
    requires s.Loop?
  {
    SetBlockEntryMask(Tested(s, c), FullMask(Tested(s, c)))
  }

  /** The path reaches the continue target, by a jump or from the end of the body. */
  predicate Stays(c2: Ctx)
  {
    c2.control == Here || (c2.continueTarget.Some? && c2.control == At(c2.continueTarget.value))
  }

  /** The end of an iteration: everyone who is still in the loop gets together
      again and steps. */
  ghost function NextHead(s: Stmt, c2: Ctx): Ctx
    requires s.Loop?
  {
    StoreVar(ClearBreakLanes(RestoreContinuedLanes(c2.(control := Here))), s.stepVar, s.stepRhs)
  }

  /** The masked run of s from c; k bounds the iterations of each loop execution.
      Nothing happens unless control is in the current block. */
  ghost function Run(s: Stmt, c: Ctx, k: nat): Ctx
    decreases s, 1, 0
  {
    if c.control != Here then c
    else match s
      case Assign(x, rhs) => StoreVar(c, x, rhs)
      case Seq(first, second) => Run(second, Run(first, c, k), k)
      case UniformIf(utest, thn, els) =>
        EndIf(Run(if utest(c.uniforms) then thn else els, StartUniformIf(c), k))
      case VaryingIf(_, _, _, _) =>
        var c2 := RunSide(s.thn, TrueSide(s, c), s.anyCheck, k);
        EndIf(if c2.control == Here then RunSide(s.els, FalseSide(s, c, c2), s.anyCheck, k) else c2)
      case Loop(_, _, _, _) =>
        var depth := |c.stack|;
        var c1 := RunLoop(s, StartLoop(c, BreakBlock(depth), ContinueBlock(depth), false), k, k);
        EndLoop(ArriveAt(c1, BreakBlock(depth)))
      case Break(coherent) => DoBreak(c, coherent)
      case Continue(coherent) => DoContinue(c, coherent)
      case Return(value, coherent) => DoReturn(c, value, coherent)
      case VaryingSwitch(expr, _) => RunSwitch(s, c, false, LaneValues(SwitchLanes(c, expr)), k)
      case UniformSwitch(selector, uniformFlow, _) =>
        RunSwitch(s, c, uniformFlow, OneValue(selector(c.uniforms)), k)
  }

  ghost function RunSwitch(s: Stmt, c: Ctx, uniformFlow: bool, expr: SwitchValue, k: nat): Ctx
    requires s.VaryingSwitch? || s.UniformSwitch?
    decreases s, 0, |s.cases| + 1
  {
    var c1 := RunCases(s, EnterSwitch(c, uniformFlow, expr, s.cases), 0, k);
    EndSwitch(ArriveAt(c1, BreakBlock(|c.stack|)))
  }

  ghost function SwitchLanes(c: Ctx, expr: Store -> int): seq<int>
  {
    seq(|c.vars|, l requires 0 <= l < |c.vars| => expr(c.vars[l]))
  }

  /** One side of a varying if, branched around if its mask is all off. */
  ghost function RunSide(side: Stmt, c: Ctx, anyCheck: bool, k: nat): Ctx
    decreases side, 2, 0
  {
    if anyCheck && FullMask(c) == {} then c else Run(side, c, k)
  }

  /** The loop from its test on: AND the test into the mask, leave if no lane is
      left, else run one iteration with the block-entry mask set to the full mask. */
  ghost function RunLoop(s: Stmt, c: Ctx, n: nat, k: nat): Ctx
    requires s.Loop?
    decreases s, 0, n
  {
    var c1 := Tested(s, c);
    if FullMask(c1) == {} then c1
    else if n == 0 then c1.(control := Stuck)
    else
      var c2 := Run(s.body, BodyStart(s, c), k);
      if Stays(c2) then RunLoop(s, NextHead(s, c2), n - 1, k) else LeaveLoop(c2)
  }

  /** The path leaves the loop from inside its body.  Lanes still parked in
      continueLanes at a break jump do not get their next iteration. */
  function LeaveLoop(c2: Ctx): Ctx
  {
    if c2.control.At? then c2.(lost := c2.lost + Lanes(c2.continueLanes) * c2.functionMask) else c2
  }

  /** The labels of a switch from the i-th on, each followed by its statements. */
  ghost function RunCases(s: Stmt, c: Ctx, i: nat, k: nat): Ctx
    requires s.VaryingSwitch? || s.UniformSwitch?
    requires i <= |s.cases|
    decreases s, 0, |s.cases| - i
  {
    if i == |s.cases| then c
    else
      var c1 := EmitLabel(c, s.cases[i].caseLabel, s.cases[i].checkMask);
      RunCases(s, Run(s.cases[i].body, c1, k), i + 1, k)
  }

  // ---------- a whole function ----------

  /** The state FunctionEmitContext sets up, once the function mask is known. */
  function Entry(functionMask: Mask, vars: seq<Store>, ret: seq<int>, u: Uniforms): Ctx
  {
    Ctx(functionMask, Gang(|vars|), {}, None, None, None, None, None, NoSwitch, [], Here, u, vars, ret, {})
  }

  ghost function RunFunction(s: Stmt, functionMask: Mask, vars: seq<Store>, ret: seq<int>, u: Uniforms, k: nat): Ctx
  {
    Run(s, Entry(functionMask, vars, ret, u), k)
  }
}
