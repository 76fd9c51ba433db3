/** The label tables of a switch and what the code at each label does with them. */
module SwitchLabels {
  import opened Lang
  import opened MaskContext
  import opened MaskedRun
  import opened StackDiscipline
  import opened LaneInvariant

  predicate IsSwitch(s: Stmt)
  {
    s.VaryingSwitch? || s.UniformSwitch?
  }

  lemma {:induction false} TargetIsLabel(cases: seq<Case>, v: int, i: nat)
    requires DistinctLabels(cases) && i < |cases|
    ensures cases[i].caseLabel == Value(v) ==> Target(cases, v) == i
    ensures cases[i].caseLabel.Value? && cases[i].caseLabel.v != v ==> Target(cases, v) != i
    ensures cases[i].caseLabel == Default ==>
        (Target(cases, v) == i <==> forall j :: 0 <= j < |cases| ==> cases[j].caseLabel != Value(v))
  {
    var own, def := FindLabel(cases, Value(v), 0), FindLabel(cases, Default, 0);
    if own != i && own < |cases| {
      assert cases[own].caseLabel != cases[i].caseLabel;
    }
    if def != i && def < |cases| {
      assert cases[def].caseLabel != cases[i].caseLabel;
    }
  }

  lemma {:induction false} FindCaseBlock(cases: seq<Case>, depth: nat, from: nat, i: nat)
    requires DistinctLabels(cases) && from <= i < |cases| && cases[i].caseLabel.Value?
    ensures FindCase(CaseBlocks(cases, depth, from), cases[i].caseLabel.v) == Some(CaseBlock(depth, i))
    decreases |cases| - from
  {
    var rest := CaseBlocks(cases, depth, from + 1);
    if from < i {
      FindCaseBlock(cases, depth, from + 1, i);
      assert cases[from].caseLabel != cases[i].caseLabel;
    }
    if cases[from].caseLabel.Value? {
      assert CaseBlocks(cases, depth, from)[1..] == rest;
    }
  }

  /** A uniform switch instruction goes where a C switch goes. */
  lemma {:induction false} DestinationIsTarget(cases: seq<Case>, depth: nat, v: int)
    ensures SwitchDestination(v, DefaultBlock(cases, depth), CaseBlocks(cases, depth, 0))
         == BlockAt(cases, depth, Target(cases, v))
  {
    DestinationFrom(cases, depth, v, 0);
  }

  lemma {:induction false} DestinationFrom(cases: seq<Case>, depth: nat, v: int, from: nat)
    requires from <= |cases|
    ensures
      var i := FindLabel(cases, Value(v), from);
      SwitchDestination(v, DefaultBlock(cases, depth), CaseBlocks(cases, depth, from))
        == if i < |cases| then CaseBlock(depth, i) else DefaultBlock(cases, depth)
    decreases |cases| - from
  {
    if from < |cases| {
      DestinationFrom(cases, depth, v, from + 1);
      if cases[from].caseLabel.Value? {
        assert CaseBlocks(cases, depth, from)[1..] == CaseBlocks(cases, depth, from + 1);
      }
    }
  }

  lemma {:induction false} AnyCase(c: Ctx, cases: seq<Case>, depth: nat, from: nat, vs: seq<int>, l: Lane)
    requires c.sw.expr == Some(LaneValues(vs)) && from <= |cases| && l < |vs|
    ensures l in AnyCaseMask(c, CaseBlocks(cases, depth, from)) <==>
        exists j :: from <= j < |cases| && cases[j].caseLabel == Value(vs[l])
    decreases |cases| - from
  {
    if from < |cases| {
      AnyCase(c, cases, depth, from + 1, vs, l);
      if cases[from].caseLabel.Value? {
        assert CaseBlocks(cases, depth, from)[1..] == CaseBlocks(cases, depth, from + 1);
        assert cases[from].caseLabel == Value(vs[l]) <==> l in MatchMask(c, cases[from].caseLabel.v);
      }
    }
  }

  lemma FirstBlock(cases: seq<Case>, depth: nat)
    ensures None in NextBlocks(cases, depth) && NextBlocks(cases, depth)[None] == BlockAt(cases, depth, 0)
  {
  }

  lemma NextBlock(cases: seq<Case>, depth: nat, i: nat)
    requires i < |cases|
    ensures Some(CaseBlock(depth, i)) in NextBlocks(cases, depth)
    ensures NextBlocks(cases, depth)[Some(CaseBlock(depth, i))] == BlockAt(cases, depth, i + 1)
  {
    NextFromAt(cases, depth, 0, i);
  }

  lemma {:induction false} NextFromAt(cases: seq<Case>, depth: nat, from: nat, i: nat)
    requires from <= i < |cases|
    ensures Some(CaseBlock(depth, i)) in NextFrom(cases, depth, from)
    ensures NextFrom(cases, depth, from)[Some(CaseBlock(depth, i))] == BlockAt(cases, depth, i + 1)
    decreases |cases| - from
  {
    if from < i {
      NextFromAt(cases, depth, from + 1, i);
    }
  }

  /** c is somewhere inside the switch s that was entered from b. */
  ghost predicate Inside(s: Stmt, b: Ctx, uniformFlow: bool, expr: SwitchValue, c: Ctx)
  {
    IsSwitch(s) && SameFrame(EnterSwitch(b, uniformFlow, expr, s.cases), c)
  }

  lemma InsideShape(s: Stmt, b: Ctx, uniformFlow: bool, expr: SwitchValue, c: Ctx)
    requires Inside(s, b, uniformFlow, expr, c)
    ensures c.stack != [] && Rest(c.stack) == b.stack && |c.stack| == |b.stack| + 1
    ensures Top(c.stack).kind == SwitchFrame && Top(c.stack).isUniform == uniformFlow
    ensures Top(c.stack).savedMask == b.internal
    ensures c.sw.expr == Some(expr) && c.sw.wasUniform == expr.OneValue?
    ensures c.sw.defaultBlock == Some(DefaultBlock(s.cases, |b.stack|))
    ensures c.sw.cases == Some(CaseBlocks(s.cases, |b.stack|, 0))
    ensures c.sw.next == Some(NextBlocks(s.cases, |b.stack|))
    ensures c.breakTarget == Some(BreakBlock(|b.stack|)) && c.continueTarget == None
    ensures c.breakLanes.Some? && c.continueLanes == None && c.entryMask == Some(FullMask(b))
    ensures InSwitch(c.stack) && MaskAtSwitchEntry(c.stack) == b.internal
    ensures VaryingDepth(c.stack) == VaryingDepth(b.stack) + (if uniformFlow then 0 else 1)
    ensures BreakJumps(c) == expr.OneValue?
    ensures c.functionMask == b.functionMask && c.uniforms == b.uniforms
    ensures |c.vars| == |b.vars| && |c.ret| == |b.ret|
  {
    PushedFrame(b, SwitchFrame, uniformFlow, b.internal);
  }

  /** The lanes live at the switch whose own label is the i-th. */
  ghost predicate StartsAt(s: Stmt, b: Ctx, vs: seq<int>, i: nat, l: Lane)
    requires IsSwitch(s)
  {
    l in b.internal && l < |vs| && Target(s.cases, vs[l]) == i
  }

  /** Control is elsewhere, so the label code does not run. */
  lemma LabelElsewhere(s: Stmt, b: Ctx, uniformFlow: bool, expr: SwitchValue, c: Ctx, i: nat)
    requires Inside(s, b, uniformFlow, expr, c) && i < |s.cases| && DistinctLabels(s.cases)
    requires c.control != Here && c.control != At(CaseBlock(|b.stack|, i))
    ensures EmitLabel(c, s.cases[i].caseLabel, s.cases[i].checkMask) == c
  {
    InsideShape(s, b, uniformFlow, expr, c);
    LabelBlock(s.cases, |b.stack|, i);
  }

  lemma LabelBlock(cases: seq<Case>, depth: nat, i: nat)
    requires i < |cases| && DistinctLabels(cases)
    ensures cases[i].caseLabel.Value? ==>
        FindCase(CaseBlocks(cases, depth, 0), cases[i].caseLabel.v) == Some(CaseBlock(depth, i))
    ensures cases[i].caseLabel == Default ==> DefaultBlock(cases, depth) == CaseBlock(depth, i)
  {
    if cases[i].caseLabel.Value? {
      FindCaseBlock(cases, depth, 0, i);
    }
  }

  lemma UniformLabel(s: Stmt, b: Ctx, uniformFlow: bool, expr: SwitchValue, c: Ctx, i: nat)
    requires Inside(s, b, uniformFlow, expr, c) && i < |s.cases| && DistinctLabels(s.cases) && expr.OneValue?
    requires c.control == Here || c.control == At(CaseBlock(|b.stack|, i))
    ensures EmitLabel(c, s.cases[i].caseLabel, s.cases[i].checkMask) == c.(control := Here)
  {
    InsideShape(s, b, uniformFlow, expr, c);
    LabelBlock(s.cases, |b.stack|, i);
  }

  /** The lanes that the code at the i-th label turns on. */
  function LabelLanes(s: Stmt, b: Ctx, c: Ctx, i: nat): Mask
    requires IsSwitch(s) && i < |s.cases|
  {
    match s.cases[i].caseLabel
    case Value(v) => b.internal * MatchMask(c, v)
    case Default => b.internal * Not(c, AnyCaseMask(c, CaseBlocks(s.cases, |b.stack|, 0)))
  }

  lemma LabelTurnsOn(s: Stmt, b: Ctx, vs: seq<int>, c: Ctx, i: nat)
    requires Inside(s, b, false, LaneValues(vs), c) && i < |s.cases| && DistinctLabels(s.cases)
    requires c.control == Here || c.control == At(CaseBlock(|b.stack|, i))
    ensures
      var c1 := c.(control := Here);
      EmitLabel(c, s.cases[i].caseLabel, s.cases[i].checkMask)
        == TurnOnAtLabel(c1, CaseBlock(|b.stack|, i), LabelLanes(s, b, c1, i), s.cases[i].checkMask)
  {
    assert IsSwitch(s);
    hide Inside, AnyCaseMask, FindCase, CaseBlocks, DefaultBlock;
    InsideShape(s, b, false, LaneValues(vs), c);
    LabelBlock(s.cases, |b.stack|, i);
  }

  lemma {:induction false} LabelLane(s: Stmt, b: Ctx, vs: seq<int>, c: Ctx, i: nat, l: Lane)
    requires IsSwitch(s) && i < |s.cases| && DistinctLabels(s.cases)
    requires c.sw.expr == Some(LaneValues(vs)) && |c.vars| == |b.vars| == |vs| && b.internal <= AllOn(b)
    ensures l in LabelLanes(s, b, c, i) <==> StartsAt(s, b, vs, i, l)
  {
    hide AnyCaseMask, CaseBlocks;
    if l < |vs| {
      TargetIsLabel(s.cases, vs[l], i);
      AnyCase(c, s.cases, |b.stack|, 0, vs, l);
    }
  }

  /** At a label of a varying switch exactly the lanes that start there come on, and
      control skips to the next label only if no lane at all is on. */
  lemma {:induction false} VaryingLabel(s: Stmt, b: Ctx, vs: seq<int>, c: Ctx, i: nat)
    requires Inside(s, b, false, LaneValues(vs), c) && i < |s.cases| && DistinctLabels(s.cases)
    requires |vs| == |b.vars| && b.internal <= AllOn(b)
    requires c.control == Here || c.control == At(CaseBlock(|b.stack|, i))
    ensures
      var c1 := EmitLabel(c, s.cases[i].caseLabel, s.cases[i].checkMask);
      c1 == c.(internal := c1.internal, control := c1.control)
      && (forall l: Lane :: l in c1.internal <==> l in c.internal || StartsAt(s, b, vs, i, l))
      && c1.control ==
         if s.cases[i].checkMask && c1.internal == {} then At(BlockAt(s.cases, |b.stack|, i + 1)) else Here
  {
    LabelTurnsOn(s, b, vs, c, i);
    InsideShape(s, b, false, LaneValues(vs), c);
    hide Inside, EmitLabel, LabelLanes, StartsAt, NextBlocks, DistinctLabels;
    NextBlock(s.cases, |b.stack|, i);
    forall l: Lane
      ensures l in LabelLanes(s, b, c.(control := Here), i) <==> StartsAt(s, b, vs, i, l)
    {
      LabelLane(s, b, vs, c.(control := Here), i, l);
    }
  }
}
