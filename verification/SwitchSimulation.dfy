/** A switch: every live lane starts at its own label and falls through from there,
    whether the lanes agree on the label (uniform) or not (varying). */
module SwitchSimulation {
  import opened Lang
  import opened MaskContext
  import opened MaskedRun
  import opened StackDiscipline
  import opened LaneInvariant
  import opened SwitchLabels

  const VaryingBody := Place(true, false, false, false)

  function UniformBody(uniformFlow: bool): Place
  {
    Place(true, false, true, uniformFlow)
  }

  /** Labels that the path does not go through do nothing. */
  lemma {:induction false} SkipsLabels(
    s: Stmt, b: Ctx, uniformFlow: bool, expr: SwitchValue, c: Ctx, i: nat, j: nat, k: nat)
    requires Inside(s, b, uniformFlow, expr, c) && DistinctLabels(s.cases) && i <= j <= |s.cases|
    requires c.control != Here && forall m: nat :: i <= m < j ==> c.control != At(CaseBlock(|b.stack|, m))
    ensures RunCases(s, c, i, k) == RunCases(s, c, j, k)
    decreases j - i
  {
    if i < j {
      LabelElsewhere(s, b, uniformFlow, expr, c, i);
      SkipsLabels(s, b, uniformFlow, expr, c, i + 1, j, k);
    }
  }

  ghost predicate AllSound(s: Stmt, p: Place, k: nat)
    requires IsSwitch(s)
  {
    DistinctLabels(s.cases)
    && forall i :: 0 <= i < |s.cases| ==> WellFormed(s.cases[i].body, p) && Sound(s.cases[i].body, p, k)
  }

  // ---------- varying ----------

  ghost function Start(s: Stmt, vs: seq<int>, l: Lane): nat
    requires IsSwitch(s)
  {
    if l < |vs| then Target(s.cases, vs[l]) else |s.cases|
  }

  /** At label i the lanes that start later are off and unfinished, and the active
      ones have started. */
  ghost predicate Waits(s: Stmt, b: Ctx, vs: seq<int>, c: Ctx, i: nat)
    requires IsSwitch(s)
  {
    && (forall l: Lane :: Active(b, l) && Start(s, vs, l) >= i ==> l !in c.internal && !Finished(c, l))
    && (forall l: Lane :: Active(c, l) ==> Active(b, l) && Start(s, vs, l) < i)
  }

  /** A lane that the labels from i on still concern, and where it resumes. */
  ghost predicate Pending(s: Stmt, b: Ctx, vs: seq<int>, c: Ctx, i: nat, l: Lane)
    requires IsSwitch(s)
  {
    Active(b, l) && (l in c.internal || Start(s, vs, l) >= i)
  }

  ghost function Remaining(s: Stmt, vs: seq<int>, c: Ctx, i: nat, l: Lane, k: nat): LaneState
    requires IsSwitch(s) && i <= |s.cases| && l < |c.vars|
  {
    RunLaneCases(s, c.uniforms, c.vars[l], if l in c.internal then i else Start(s, vs, l), k)
  }

  ghost predicate Rests(c: Ctx, c1: Ctx, l: Lane)
    requires |c1.vars| == |c.vars| && |c.ret| == |c1.ret| == |c.vars| && l < |c.vars|
  {
    && c1.vars[l] == c.vars[l] && c1.ret[l] == c.ret[l]
    && (l in c1.returned <==> l in c.returned)
    && (c1.control == Exited ==> l in c1.returned)
  }

  ghost predicate CasesSimulate(s: Stmt, b: Ctx, vs: seq<int>, c: Ctx, c1: Ctx, i: nat, k: nat)
    requires IsSwitch(s) && i <= |s.cases|
  {
    && MaskInv(b) && MaskInv(c) && MaskInv(c1) && SameFrame(c, c1)
    && c.functionMask == b.functionMask && |c.vars| == |b.vars|
    && (c1.control.At? ==> c1.control == At(BreakBlock(|b.stack|)))
    && (c1.control == Exited ==> c.functionMask <= c1.returned + c1.internal)
    && (forall l: Lane :: l < |c.vars| ==>
          if l in c.functionMask then l in b.internal || Idle(c, c1, l) else c1.vars[l] == c.vars[l])
    && (c1.control == Stuck ==>
          exists l: Lane :: Pending(s, b, vs, c, i, l)
            && (l in c1.lost || Remaining(s, vs, c, i, l, k).outcome == Unfinished))
    && (c1.control != Stuck ==>
          forall l: Lane :: Active(b, l) && l !in c1.lost ==>
            if Pending(s, b, vs, c, i, l) then LeftWith(c, c1, l, Remaining(s, vs, c, i, l, k)) else Rests(c, c1, l))
  }

  /** What holds in front of label i. */
  ghost predicate AtLabel(s: Stmt, b: Ctx, vs: seq<int>, c: Ctx, i: nat)
  {
    && Inside(s, b, false, LaneValues(vs), c) && |vs| == |b.vars| && i <= |s.cases|
    && MaskInv(b) && MaskInv(c) && Waits(s, b, vs, c, i)
    && (c.control == Here || (c.control == At(BlockAt(s.cases, |b.stack|, i)) && FullMask(c) == {}))
  }

  lemma {:induction false} LabelReady(s: Stmt, b: Ctx, vs: seq<int>, c: Ctx, i: nat)
    requires AtLabel(s, b, vs, c, i) && i < |s.cases| && DistinctLabels(s.cases)
    requires WellFormed(s.cases[i].body, VaryingBody)
    ensures
      var c1 := EmitLabel(c, s.cases[i].caseLabel, s.cases[i].checkMask);
      Inside(s, b, false, LaneValues(vs), c1) && MaskInv(c1)
      && (c1.control == Here ==> Ready(s.cases[i].body, VaryingBody, c1))
  {
    var c1 := EmitLabel(c, s.cases[i].caseLabel, s.cases[i].checkMask);
    VaryingLabel(s, b, vs, c, i);
    InsideShape(s, b, false, LaneValues(vs), c);
    forall l: Lane | l in c.functionMask
      ensures OneRole(c1, l)
      ensures l in c1.internal ==> l in b.internal
    {
      assert OneRole(c, l);
      assert StartsAt(s, b, vs, i, l) ==> Active(b, l) && Start(s, vs, l) >= i;
      assert l in c.internal ==> Active(c, l);
    }
  }

  /** c1 is c after the code of label i: the lanes that start there are on. */
  ghost predicate Labelled(s: Stmt, b: Ctx, vs: seq<int>, c: Ctx, c1: Ctx, i: nat)
    requires IsSwitch(s)
  {
    && c1 == c.(internal := c1.internal, control := c1.control)
    && (forall l: Lane :: l in c1.internal <==> l in c.internal || StartsAt(s, b, vs, i, l))
  }

  /** Nobody starts at label i, so its statements are skipped. */
  lemma {:induction false} SkippedLabel(s: Stmt, b: Ctx, vs: seq<int>, c: Ctx, c1: Ctx, i: nat)
    requires AtLabel(s, b, vs, c, i) && i < |s.cases| && Labelled(s, b, vs, c, c1, i) && MaskInv(c1)
    requires c1.internal == {} && c1.control == At(BlockAt(s.cases, |b.stack|, i + 1))
    ensures AtLabel(s, b, vs, c1, i + 1)
  {
    forall l: Lane | Active(b, l) && Start(s, vs, l) >= i + 1
      ensures !Finished(c1, l)
    {
      assert !Finished(c, l);
    }
  }

  lemma {:induction false} ThenSkipped(s: Stmt, b: Ctx, vs: seq<int>, c: Ctx, c1: Ctx, c3: Ctx, i: nat, k: nat)
    requires AtLabel(s, b, vs, c, i) && i < |s.cases| && Labelled(s, b, vs, c, c1, i)
    requires c1.internal == {} && CasesSimulate(s, b, vs, c1, c3, i + 1, k)
    ensures CasesSimulate(s, b, vs, c, c3, i, k)
  {
    forall l: Lane | Active(b, l)
      ensures Pending(s, b, vs, c, i, l) == Pending(s, b, vs, c1, i + 1, l)
      ensures Pending(s, b, vs, c, i, l) ==> Remaining(s, vs, c, i, l, k) == Remaining(s, vs, c1, i + 1, l, k)
    {
      assert !StartsAt(s, b, vs, i, l) && l !in c.internal;
    }
  }

  /** The statements at label i ran to their end: on to the next label. */
  lemma {:induction false} NextLabel(s: Stmt, b: Ctx, vs: seq<int>, c: Ctx, c1: Ctx, c2: Ctx, i: nat, k: nat)
    requires AtLabel(s, b, vs, c, i) && i < |s.cases| && Labelled(s, b, vs, c, c1, i)
    requires c1.control == Here && c2.control == Here
    requires Simulates(s.cases[i].body, VaryingBody, c1, c2, k)
    ensures AtLabel(s, b, vs, c2, i + 1)
  {
    forall l: Lane | l in c.functionMask
      ensures Active(b, l) && Start(s, vs, l) >= i + 1 ==> l !in c2.internal && !Finished(c2, l)
      ensures Active(c2, l) ==> Active(b, l) && Start(s, vs, l) < i + 1
    {
      assert Active(c1, l) || Idle(c1, c2, l);
      if Active(b, l) && Start(s, vs, l) >= i + 1 {
        assert l !in c.internal && !Finished(c, l);
      }
      if Active(c1, l) {
        assert Active(c, l) || StartsAt(s, b, vs, i, l);
      }
    }
  }

  lemma {:induction false} ThenCases(s: Stmt, b: Ctx, vs: seq<int>, c: Ctx, c1: Ctx, c2: Ctx, c3: Ctx, i: nat, k: nat)
    requires AtLabel(s, b, vs, c, i) && i < |s.cases| && Labelled(s, b, vs, c, c1, i)
    requires c1.control == Here && c2.control == Here
    requires Simulates(s.cases[i].body, VaryingBody, c1, c2, k)
    requires CasesSimulate(s, b, vs, c2, c3, i + 1, k)
    ensures CasesSimulate(s, b, vs, c, c3, i, k)
  {
    hide LeftWith, Rests, Remaining, Did, RunLane, EnterSwitch;
    forall l: Lane | l in c.functionMask
      ensures Active(b, l) || Idle(c, c3, l)
      ensures c3.control != Stuck && Active(b, l) && l !in c3.lost ==>
        if Pending(s, b, vs, c, i, l) then LeftWith(c, c3, l, Remaining(s, vs, c, i, l, k)) else Rests(c, c3, l)
    {
      LaneThenCases(s, b, vs, c, c1, c2, c3, i, l, k);
    }
    if c3.control == Stuck {
      var l: Lane :| Pending(s, b, vs, c2, i + 1, l)
        && (l in c3.lost || Remaining(s, vs, c2, i + 1, l, k).outcome == Unfinished);
      LaneStuckLater(s, b, vs, c, c1, c2, i, l, k);
    }
  }

  lemma {:induction false} LaneStuckLater(
    s: Stmt, b: Ctx, vs: seq<int>, c: Ctx, c1: Ctx, c2: Ctx, i: nat, l: Lane, k: nat)
    requires AtLabel(s, b, vs, c, i) && i < |s.cases| && Labelled(s, b, vs, c, c1, i)
    requires c1.control == Here && c2.control == Here && AtLabel(s, b, vs, c2, i + 1)
    requires Simulates(s.cases[i].body, VaryingBody, c1, c2, k)
    requires Pending(s, b, vs, c2, i + 1, l)
    ensures Pending(s, b, vs, c, i, l)
    ensures l !in c2.lost && Remaining(s, vs, c2, i + 1, l, k).outcome == Unfinished ==>
        Remaining(s, vs, c, i, l, k).outcome == Unfinished
  {
    LaneThroughLabel(s, b, vs, c, c1, c2, i, l, k);
    assert OneRole(c2, l);
  }

  lemma {:induction false} LaneThenCases(
    s: Stmt, b: Ctx, vs: seq<int>, c: Ctx, c1: Ctx, c2: Ctx, c3: Ctx, i: nat, l: Lane, k: nat)
    requires AtLabel(s, b, vs, c, i) && i < |s.cases| && Labelled(s, b, vs, c, c1, i)
    requires c1.control == Here && c2.control == Here && l in c.functionMask
    requires Simulates(s.cases[i].body, VaryingBody, c1, c2, k)
    requires CasesSimulate(s, b, vs, c2, c3, i + 1, k)
    ensures Active(b, l) || Idle(c, c3, l)
    ensures c3.control != Stuck && Active(b, l) && l !in c3.lost ==>
      if Pending(s, b, vs, c, i, l) then LeftWith(c, c3, l, Remaining(s, vs, c, i, l, k)) else Rests(c, c3, l)
  {
    LaneThroughLabel(s, b, vs, c, c1, c2, i, l, k);
    assert OneRole(c2, l) && OneRole(c3, l);
  }

  /** Lane l at label i: it runs the statements there if it is on, else it is as before. */
  lemma {:induction false} LaneThroughLabel(
    s: Stmt, b: Ctx, vs: seq<int>, c: Ctx, c1: Ctx, c2: Ctx, i: nat, l: Lane, k: nat)
    requires AtLabel(s, b, vs, c, i) && i < |s.cases| && Labelled(s, b, vs, c, c1, i)
    requires c1.control == Here && l in c.functionMask
    requires Simulates(s.cases[i].body, VaryingBody, c1, c2, k)
    ensures Active(c1, l) <==> Active(b, l) && (l in c.internal || Start(s, vs, l) == i)
    ensures !Active(c1, l) ==> Idle(c, c2, l)
    ensures c2.control != Stuck && Active(c1, l) && l !in c2.lost ==>
        Did(c1, c2, l, RunLane(s.cases[i].body, c.uniforms, c.vars[l], k))
  {
    assert Active(c, l) ==> Active(b, l);
    assert Active(c1, l) || Idle(c1, c2, l);
  }

  /** The statements at label i left the switch, or never ended: nobody is waiting
      for a later label. */
  lemma {:induction false} BodyLeavesSwitch(s: Stmt, b: Ctx, vs: seq<int>, c: Ctx, c1: Ctx, c2: Ctx, i: nat, k: nat)
    requires AtLabel(s, b, vs, c, i) && i < |s.cases| && Labelled(s, b, vs, c, c1, i)
    requires c1.control == Here && c2.control != Here
    requires Simulates(s.cases[i].body, VaryingBody, c1, c2, k)
    ensures CasesSimulate(s, b, vs, c, c2, i, k)
  {
    InsideShape(s, b, false, LaneValues(vs), c);
    forall l: Lane | l in c.functionMask
      ensures Active(b, l) || Idle(c, c2, l)
      ensures c2.control != Stuck && Active(b, l) && l !in c2.lost ==>
        if Pending(s, b, vs, c, i, l) then LeftWith(c, c2, l, Remaining(s, vs, c, i, l, k)) else Rests(c, c2, l)
    {
      LaneThroughLabel(s, b, vs, c, c1, c2, i, l, k);
      assert OneRole(c, l) && OneRole(c2, l);
      if Active(b, l) {
        assert l in Lanes(c.entryMask);
        assert Start(s, vs, l) > i ==> !Finished(c, l);
      }
    }
    if c2.control == Stuck {
      var l: Lane :| Active(c1, l)
        && (l in c2.lost || RunLane(s.cases[i].body, c1.uniforms, c1.vars[l], k).outcome == Unfinished);
      LaneThroughLabel(s, b, vs, c, c1, c2, i, l, k);
      assert Pending(s, b, vs, c, i, l);
      assert l in c2.lost || Remaining(s, vs, c, i, l, k).outcome == Unfinished;
    }
  }

  /** One label of the run: its code, then its statements. */
  lemma {:induction false} LabelAndBody(s: Stmt, b: Ctx, vs: seq<int>, c: Ctx, i: nat, k: nat)
    requires AtLabel(s, b, vs, c, i) && AllSound(s, VaryingBody, k) && i < |s.cases|
    ensures
      var c1 := EmitLabel(c, s.cases[i].caseLabel, s.cases[i].checkMask);
      var c2 := Run(s.cases[i].body, c1, k);
      Labelled(s, b, vs, c, c1, i) && MaskInv(c1)
      && Inside(s, b, false, LaneValues(vs), c2)
      && (if c1.control == Here then Simulates(s.cases[i].body, VaryingBody, c1, c2, k)
          else c1.internal == {} && c1.control == At(BlockAt(s.cases, |b.stack|, i + 1)))
  {
    var c1 := EmitLabel(c, s.cases[i].caseLabel, s.cases[i].checkMask);
    VaryingLabel(s, b, vs, c, i);
    LabelReady(s, b, vs, c, i);
    InsideShape(s, b, false, LaneValues(vs), c1);
    Discipline(s.cases[i].body, c1, k);
    CasesDiscipline(s, Run(s.cases[i].body, c1, k), i + 1, k);
  }

  lemma {:induction false} VaryingCasesRun(s: Stmt, b: Ctx, vs: seq<int>, c: Ctx, i: nat, k: nat)
    requires AtLabel(s, b, vs, c, i) && AllSound(s, VaryingBody, k)
    ensures CasesSimulate(s, b, vs, c, RunCases(s, c, i, k), i, k)
    decreases |s.cases| - i
  {
    if i == |s.cases| {
      LabelsEnd(s, b, vs, c, i, k);
    } else {
      var c1 := EmitLabel(c, s.cases[i].caseLabel, s.cases[i].checkMask);
      var c2 := Run(s.cases[i].body, c1, k);
      LabelAndBody(s, b, vs, c, i, k);
      if c1.control != Here {
        SkippedLabel(s, b, vs, c, c1, i);
        VaryingCasesRun(s, b, vs, c1, i + 1, k);
        ThenSkipped(s, b, vs, c, c1, RunCases(s, c1, i + 1, k), i, k);
      } else if c2.control == Here {
        NextLabel(s, b, vs, c, c1, c2, i, k);
        VaryingCasesRun(s, b, vs, c2, i + 1, k);
        ThenCases(s, b, vs, c, c1, c2, RunCases(s, c2, i + 1, k), i, k);
      } else {
        LeavesLabels(s, b, vs, c1, c2, i, k);
        BodyLeavesSwitch(s, b, vs, c, c1, c2, i, k);
      }
    }
  }

  lemma {:induction false} LeavesLabels(s: Stmt, b: Ctx, vs: seq<int>, c1: Ctx, c2: Ctx, i: nat, k: nat)
    requires Inside(s, b, false, LaneValues(vs), c2) && DistinctLabels(s.cases) && i < |s.cases|
    requires c2.control != Here && JumpsSound(VaryingBody, c1, c2)
    requires c1.breakTarget == c2.breakTarget && c1.continueTarget == c2.continueTarget
    ensures RunCases(s, c2, i + 1, k) == c2
  {
    InsideShape(s, b, false, LaneValues(vs), c2);
    SkipsLabels(s, b, false, LaneValues(vs), c2, i + 1, |s.cases|, k);
  }

  lemma {:induction false} LabelsEnd(s: Stmt, b: Ctx, vs: seq<int>, c: Ctx, i: nat, k: nat)
    requires AtLabel(s, b, vs, c, i) && i == |s.cases|
    ensures CasesSimulate(s, b, vs, c, c, i, k)
  {
    InsideShape(s, b, false, LaneValues(vs), c);
    forall l: Lane | l in c.functionMask
      ensures OneRole(c, l)
      ensures Active(c, l) ==> Active(b, l)
      ensures Active(c, l) <==> l in FullMask(c)
    {
    }
  }

  // ---------- the varying switch statement ----------

  lemma SwitchFrameSaved(s: Stmt, b: Ctx, uniformFlow: bool, expr: SwitchValue, c3: Ctx)
    requires Inside(s, b, uniformFlow, expr, c3)
    ensures c3.stack != [] && Rest(c3.stack) == b.stack
    ensures Top(c3.stack) == Frame(SwitchFrame, uniformFlow, b.internal, b.breakTarget, b.continueTarget,
                                   b.breakLanes, b.continueLanes, b.entryMask, b.sw)
    ensures c3.functionMask == b.functionMask && c3.uniforms == b.uniforms
    ensures |c3.vars| == |b.vars| && |c3.ret| == |b.ret| && b.returned <= c3.returned && b.lost <= c3.lost
  {
  }

  lemma EndSwitchPops(b: Ctx, uniformFlow: bool, c3: Ctx)
    requires c3.stack != [] && Rest(c3.stack) == b.stack
    requires Top(c3.stack) == Frame(SwitchFrame, uniformFlow, b.internal, b.breakTarget, b.continueTarget,
                                    b.breakLanes, b.continueLanes, b.entryMask, b.sw)
    requires c3.functionMask == b.functionMask && c3.uniforms == b.uniforms && |c3.vars| == |b.vars|
    ensures
      var m := if uniformFlow || c3.control != Here then c3.internal else b.internal * Not(b, c3.returned);
      EndSwitch(c3) == b.(internal := m, returned := c3.returned, control := c3.control,
                          vars := c3.vars, ret := c3.ret, lost := c3.lost)
  {
  }

  /** The end of a switch turns back on the lanes that were active and have not
      returned; one with uniform flow never turned them off. */
  lemma EndSwitchRestores(b: Ctx, uniformFlow: bool, expr: SwitchValue, s: Stmt, c3: Ctx)
    requires Inside(s, b, uniformFlow, expr, c3) && MaskInv(b) && MaskInv(c3) && !c3.control.At?
    requires forall l: Lane :: l in b.functionMask && l in c3.internal ==> l in b.internal
    requires uniformFlow && c3.control == Here ==>
        forall l: Lane :: Active(b, l) ==> l in c3.internal || l in c3.returned
    ensures Restored(b, EndSwitch(c3))
    ensures c3.control != Here ==> EndSwitch(c3).internal == c3.internal
    ensures EndSwitch(c3).control == c3.control && EndSwitch(c3).returned == c3.returned
    ensures EndSwitch(c3).vars == c3.vars && EndSwitch(c3).ret == c3.ret && EndSwitch(c3).lost == c3.lost
  {
    SwitchFrameSaved(s, b, uniformFlow, expr, c3);
    EndSwitchPops(b, uniformFlow, c3);
    RestoredBy(b, c3, if uniformFlow || c3.control != Here then c3.internal else b.internal * Not(b, c3.returned));
  }

  lemma RestoredBy(b: Ctx, c3: Ctx, m: Mask)
    requires MaskInv(b) && MaskInv(c3) && !c3.control.At? && c3.functionMask == b.functionMask
    requires |c3.vars| == |b.vars| && |c3.ret| == |b.ret| && b.returned <= c3.returned && b.lost <= c3.lost
    requires forall l: Lane :: l in b.functionMask && l in c3.internal ==> l in b.internal
    requires m == c3.internal || m == b.internal * Not(b, c3.returned)
    requires m == c3.internal && c3.control == Here ==>
        forall l: Lane :: Active(b, l) ==> l in c3.internal || l in c3.returned
    ensures Restored(b, b.(internal := m, returned := c3.returned, control := c3.control,
                           vars := c3.vars, ret := c3.ret, lost := c3.lost))
  {
    assert forall l: Lane :: l in b.functionMask ==> OneRole(c3, l);
  }

  lemma {:induction false} FirstLabel(s: Stmt, b: Ctx, vs: seq<int>)
    requires IsSwitch(s) && MaskInv(b) && b.control == Here && |vs| == |b.vars|
    ensures AtLabel(s, b, vs, EnterSwitch(b, false, LaneValues(vs), s.cases), 0)
  {
    var c0 := EnterSwitch(b, false, LaneValues(vs), s.cases);
    assert forall l: Lane :: l in b.functionMask ==> OneRole(b, l);
  }

  lemma {:induction false} VaryingSwitchSimulation(s: Stmt, p: Place, b: Ctx, k: nat)
    requires s.VaryingSwitch? && Ready(s, p, b) && AllSound(s, VaryingBody, k)
    ensures Simulates(s, p, b, Run(s, b, k), k)
  {
    var vs := SwitchLanes(b, s.expr);
    var c0 := EnterSwitch(b, false, LaneValues(vs), s.cases);
    FirstLabel(s, b, vs);
    VaryingCasesRun(s, b, vs, c0, 0, k);
    VaryingSwitchEnds(s, p, b, c0, RunCases(s, c0, 0, k), k);
  }

  /** e is the state after the switch, c3 the one at its break block. */
  ghost predicate EndsAs(c3: Ctx, e: Ctx)
  {
    && e.control == (if c3.control.At? then Here else c3.control)
    && (e.control != Here ==> e.internal == c3.internal)
    && e.returned == c3.returned && e.vars == c3.vars && e.ret == c3.ret && e.lost == c3.lost
  }

  /** c0 is b as far as the lanes' memory goes. */
  ghost predicate SameMemory(b: Ctx, c0: Ctx)
  {
    && c0.vars == b.vars && c0.ret == b.ret && c0.returned == b.returned
    && c0.functionMask == b.functionMask && c0.uniforms == b.uniforms
  }

  lemma {:induction false} VaryingSwitchEnds(s: Stmt, p: Place, b: Ctx, c0: Ctx, c3: Ctx, k: nat)
    requires s.VaryingSwitch? && Ready(s, p, b)
    requires c0 == EnterSwitch(b, false, LaneValues(SwitchLanes(b, s.expr)), s.cases)
    requires CasesSimulate(s, b, SwitchLanes(b, s.expr), c0, c3, 0, k)
    ensures Simulates(s, p, b, EndSwitch(ArriveAt(c3, BreakBlock(|b.stack|))), k)
  {
    assert SameMemory(b, c0) && c0.internal == {};
    EndSwitchRestores(b, false, LaneValues(SwitchLanes(b, s.expr)), s, ArriveAt(c3, BreakBlock(|b.stack|)));
    VaryingSwitchLanes(s, p, b, c0, c3, EndSwitch(ArriveAt(c3, BreakBlock(|b.stack|))), k);
  }

  lemma {:induction false} VaryingSwitchLanes(s: Stmt, p: Place, b: Ctx, c0: Ctx, c3: Ctx, e: Ctx, k: nat)
    requires s.VaryingSwitch? && Ready(s, p, b) && SameMemory(b, c0) && c0.internal == {}
    requires Restored(b, e) && EndsAs(c3, e)
    requires CasesSimulate(s, b, SwitchLanes(b, s.expr), c0, c3, 0, k)
    ensures Simulates(s, p, b, e, k)
  {
    var vs := SwitchLanes(b, s.expr);
    forall l: Lane | l < |b.vars|
      ensures Active(b, l) ==> Pending(s, b, vs, c0, 0, l)
      ensures Pending(s, b, vs, c0, 0, l) ==>
          Remaining(s, vs, c0, 0, l, k) == RunLane(s, b.uniforms, b.vars[l], k)
      ensures l in b.functionMask && !Active(b, l) ==> Idle(c0, c3, l)
    {
    }
    ConstructEnds(s, p, b, e, k);
  }

  // ---------- uniform ----------

  ghost predicate AtUniformLabel(s: Stmt, b: Ctx, uniformFlow: bool, expr: SwitchValue, c: Ctx, i: nat)
  {
    && Inside(s, b, uniformFlow, expr, c) && expr.OneValue? && i <= |s.cases|
    && MaskInv(c) && FullMask(c) <= FullMask(b)
    && (VaryingDepth(c.stack) == 0 ==> c.functionMask <= c.internal + c.returned)
    && (c.control == Here || c.control == At(BlockAt(s.cases, |b.stack|, i)))
  }

  ghost predicate UniformSimulates(s: Stmt, b: Ctx, uniformFlow: bool, c: Ctx, c1: Ctx, i: nat, k: nat)
    requires IsSwitch(s) && i <= |s.cases|
  {
    && MaskInv(c) && MaskInv(c1) && SameFrame(c, c1) && Untouched(c, c1)
    && (c1.control.At? ==> c1.control == At(BreakBlock(|b.stack|)))
    && (c1.control == Exited && VaryingDepth(c.stack) > 0 ==> c.functionMask <= c1.returned + c1.internal)
    && (c1.control == Stuck ==>
          exists l: Lane :: Active(c, l)
            && (l in c1.lost || RunLaneCases(s, c.uniforms, c.vars[l], i, k).outcome == Unfinished))
    && (c1.control != Stuck ==>
          forall l: Lane :: Active(c, l) && l !in c1.lost ==>
            LeftWith(c, c1, l, RunLaneCases(s, c.uniforms, c.vars[l], i, k)))
    && (uniformFlow ==> c1.breakLanes == c.breakLanes)
    && (uniformFlow && c1.control != Exited && c1.control != Stuck ==>
          forall l: Lane :: Active(c, l) ==> l in c1.internal || l in c1.returned)
  }

  lemma {:induction false} UniformLabelReady(s: Stmt, b: Ctx, uniformFlow: bool, expr: SwitchValue, c: Ctx, i: nat)
    requires AtUniformLabel(s, b, uniformFlow, expr, c, i) && i < |s.cases|
    requires WellFormed(s.cases[i].body, UniformBody(uniformFlow))
    ensures Ready(s.cases[i].body, UniformBody(uniformFlow), c.(control := Here))
  {
    InsideShape(s, b, uniformFlow, expr, c);
    var c1 := c.(control := Here);
    assert forall l: Lane :: l in c.functionMask ==> OneRole(c, l);
  }

  lemma {:induction false} UniformCasesRun(
    s: Stmt, b: Ctx, uniformFlow: bool, expr: SwitchValue, c: Ctx, i: nat, k: nat)
    requires AtUniformLabel(s, b, uniformFlow, expr, c, i) && AllSound(s, UniformBody(uniformFlow), k)
    requires c.breakLanes == Some({}) || !uniformFlow
    ensures UniformSimulates(s, b, uniformFlow, c, RunCases(s, c, i, k), i, k)
    decreases |s.cases| - i
  {
    if i == |s.cases| {
      UniformLabelsEnd(s, b, uniformFlow, c, k);
    } else {
      var c1 := c.(control := Here);
      var c2 := Run(s.cases[i].body, c1, k);
      UniformLabel(s, b, uniformFlow, expr, c, i);
      UniformBodyRuns(s, b, uniformFlow, expr, c, i, k);
      if c2.control == Here {
        UniformCasesRun(s, b, uniformFlow, expr, c2, i + 1, k);
        ThenUniformCases(s, b, uniformFlow, expr, c, c2, RunCases(s, c2, i + 1, k), i, k);
      } else {
        UniformLeavesLabels(s, b, uniformFlow, expr, c1, c2, i, k);
        UniformBodyLeaves(s, b, uniformFlow, expr, c, c2, i, k);
      }
    }
  }

  lemma {:induction false} UniformLabelsEnd(s: Stmt, b: Ctx, uniformFlow: bool, c: Ctx, k: nat)
    requires IsSwitch(s) && MaskInv(c) && (c.control == Here || c.control == At(BreakBlock(|b.stack|)))
    ensures UniformSimulates(s, b, uniformFlow, c, c, |s.cases|, k)
  {
    assert forall l: Lane :: l in c.functionMask ==> OneRole(c, l);
  }

  lemma {:induction false} UniformBodyRuns(
    s: Stmt, b: Ctx, uniformFlow: bool, expr: SwitchValue, c: Ctx, i: nat, k: nat)
    requires AtUniformLabel(s, b, uniformFlow, expr, c, i) && AllSound(s, UniformBody(uniformFlow), k) && i < |s.cases|
    ensures
      var c1 := c.(control := Here);
      var c2 := Run(s.cases[i].body, c1, k);
      Simulates(s.cases[i].body, UniformBody(uniformFlow), c1, c2, k)
      && Inside(s, b, uniformFlow, expr, c2)
      && (c2.control == Here ==> AtUniformLabel(s, b, uniformFlow, expr, c2, i + 1))
  {
    var c1 := c.(control := Here);
    InsideShape(s, b, uniformFlow, expr, c);
    UniformLabel(s, b, uniformFlow, expr, c, i);
    UniformLabelReady(s, b, uniformFlow, expr, c, i);
    Discipline(s.cases[i].body, c1, k);
    CasesDiscipline(s, Run(s.cases[i].body, c1, k), i + 1, k);
    var c2 := Run(s.cases[i].body, c1, k);
    OnlyActiveStay(c1, c2);
    assert forall l: Lane :: l in FullMask(c2) ==> Active(c2, l);
  }

  lemma {:induction false} UniformLeavesLabels(
    s: Stmt, b: Ctx, uniformFlow: bool, expr: SwitchValue, c1: Ctx, c2: Ctx, i: nat, k: nat)
    requires Inside(s, b, uniformFlow, expr, c2) && DistinctLabels(s.cases) && i < |s.cases|
    requires c2.control != Here && JumpsSound(UniformBody(uniformFlow), c1, c2)
    requires c1.breakTarget == c2.breakTarget && c1.continueTarget == c2.continueTarget
    ensures RunCases(s, c2, i + 1, k) == c2
  {
    InsideShape(s, b, uniformFlow, expr, c2);
    SkipsLabels(s, b, uniformFlow, expr, c2, i + 1, |s.cases|, k);
  }

  lemma {:induction false} UniformBodyLeaves(
    s: Stmt, b: Ctx, uniformFlow: bool, expr: SwitchValue, c: Ctx, c2: Ctx, i: nat, k: nat)
    requires AtUniformLabel(s, b, uniformFlow, expr, c, i) && i < |s.cases|
    requires c.breakLanes == Some({}) || !uniformFlow
    requires Simulates(s.cases[i].body, UniformBody(uniformFlow), c.(control := Here), c2, k) && c2.control != Here
    ensures UniformSimulates(s, b, uniformFlow, c, c2, i, k)
  {
    InsideShape(s, b, uniformFlow, expr, c);
    var c1 := c.(control := Here);
    forall l: Lane | l in c.functionMask
      ensures Active(c, l) || Idle(c, c2, l)
      ensures Active(c, l) && c2.control != Stuck && l !in c2.lost ==>
          LeftWith(c, c2, l, RunLaneCases(s, c.uniforms, c.vars[l], i, k))
      ensures uniformFlow && Active(c, l) && c2.control != Exited && c2.control != Stuck ==>
          l in c2.internal || l in c2.returned
    {
      assert OneRole(c2, l);
      assert Active(c1, l) == Active(c, l);
      assert Active(c1, l) || Idle(c1, c2, l);
    }
    if c2.control == Stuck {
      var l: Lane :| Active(c1, l)
        && (l in c2.lost || RunLane(s.cases[i].body, c1.uniforms, c1.vars[l], k).outcome == Unfinished);
      assert Active(c, l);
      assert l in c2.lost || RunLaneCases(s, c.uniforms, c.vars[l], i, k).outcome == Unfinished;
    }
  }

  lemma {:induction false} ThenUniformCases(
    s: Stmt, b: Ctx, uniformFlow: bool, expr: SwitchValue, c: Ctx, c2: Ctx, c3: Ctx, i: nat, k: nat)
    requires AtUniformLabel(s, b, uniformFlow, expr, c, i) && i < |s.cases|
    requires c.breakLanes == Some({}) || !uniformFlow
    requires Simulates(s.cases[i].body, UniformBody(uniformFlow), c.(control := Here), c2, k) && c2.control == Here
    requires UniformSimulates(s, b, uniformFlow, c2, c3, i + 1, k)
    ensures UniformSimulates(s, b, uniformFlow, c, c3, i, k)
  {
    InsideShape(s, b, uniformFlow, expr, c);
    var c1 := c.(control := Here);
    forall l: Lane | l in c.functionMask
      ensures Active(c, l) || Idle(c, c3, l)
      ensures Active(c, l) && c3.control != Stuck && l !in c3.lost ==>
          LeftWith(c, c3, l, RunLaneCases(s, c.uniforms, c.vars[l], i, k))
      ensures uniformFlow && Active(c, l) && c3.control != Exited && c3.control != Stuck ==>
          l in c3.internal || l in c3.returned
    {
      assert OneRole(c2, l) && OneRole(c3, l);
      assert Active(c1, l) == Active(c, l);
      assert Active(c1, l) || Idle(c1, c2, l);
      assert Active(c2, l) || Idle(c2, c3, l);
    }
    if c3.control == Stuck {
      var l: Lane :| Active(c2, l)
        && (l in c3.lost || RunLaneCases(s, c2.uniforms, c2.vars[l], i + 1, k).outcome == Unfinished);
      assert OneRole(c2, l) && Active(c1, l);
      assert l in c3.lost || RunLaneCases(s, c.uniforms, c.vars[l], i, k).outcome == Unfinished;
    }
  }

  lemma {:induction false} UniformSwitchSimulation(s: Stmt, p: Place, b: Ctx, k: nat)
    requires s.UniformSwitch? && Ready(s, p, b)
    requires AllSound(s, UniformBody(s.uniformFlow), k)
    ensures Simulates(s, p, b, Run(s, b, k), k)
  {
    var expr := OneValue(s.selector(b.uniforms));
    var c0 := EnterSwitch(b, s.uniformFlow, expr, s.cases);
    var i := Target(s.cases, expr.v);
    FirstUniformLabel(s, b, s.uniformFlow, expr);
    SkipsLabels(s, b, s.uniformFlow, expr, c0, 0, i, k);
    UniformCasesRun(s, b, s.uniformFlow, expr, c0, i, k);
    UniformSwitchEnds(s, p, b, c0, RunCases(s, c0, i, k), k);
  }

  lemma {:induction false} FirstUniformLabel(s: Stmt, b: Ctx, uniformFlow: bool, expr: SwitchValue)
    requires IsSwitch(s) && Inv(b) && b.control == Here && expr.OneValue?
    ensures
      var c0 := EnterSwitch(b, uniformFlow, expr, s.cases);
      AtUniformLabel(s, b, uniformFlow, expr, c0, Target(s.cases, expr.v)) && c0.breakLanes == Some({})
      && c0.control == At(BlockAt(s.cases, |b.stack|, Target(s.cases, expr.v)))
  {
    var c0 := EnterSwitch(b, uniformFlow, expr, s.cases);
    DestinationIsTarget(s.cases, |b.stack|, expr.v);
    InsideShape(s, b, uniformFlow, expr, c0);
    assert forall l: Lane :: l in b.functionMask ==> OneRole(b, l);
  }

  lemma {:induction false} UniformSwitchEnds(s: Stmt, p: Place, b: Ctx, c0: Ctx, c3: Ctx, k: nat)
    requires s.UniformSwitch? && Ready(s, p, b)
    requires c0 == EnterSwitch(b, s.uniformFlow, OneValue(s.selector(b.uniforms)), s.cases)
    requires UniformSimulates(s, b, s.uniformFlow, c0, c3, Target(s.cases, s.selector(b.uniforms)), k)
    ensures Simulates(s, p, b, EndSwitch(ArriveAt(c3, BreakBlock(|b.stack|))), k)
  {
    assert SameMemory(b, c0) && c0.internal == b.internal;
    UniformStaysOff(s, b, c0, c3, Target(s.cases, s.selector(b.uniforms)), k);
    EndSwitchRestores(b, s.uniformFlow, OneValue(s.selector(b.uniforms)), s, ArriveAt(c3, BreakBlock(|b.stack|)));
    UniformSwitchLanes(s, p, b, c0, c3, EndSwitch(ArriveAt(c3, BreakBlock(|b.stack|))), k);
  }

  lemma {:induction false} UniformStaysOff(s: Stmt, b: Ctx, c0: Ctx, c3: Ctx, i: nat, k: nat)
    requires IsSwitch(s) && i <= |s.cases| && SameMemory(b, c0) && c0.internal == b.internal
    requires exists uf :: UniformSimulates(s, b, uf, c0, c3, i, k)
    ensures forall l: Lane :: l in b.functionMask && l in c3.internal ==> l in b.internal
  {
    forall l: Lane | l in b.functionMask && l !in b.internal
      ensures Idle(c0, c3, l)
    {
    }
  }

  lemma {:induction false} UniformSwitchLanes(s: Stmt, p: Place, b: Ctx, c0: Ctx, c3: Ctx, e: Ctx, k: nat)
    requires s.UniformSwitch? && Ready(s, p, b) && SameMemory(b, c0) && c0.internal == b.internal
    requires Restored(b, e) && EndsAs(c3, e)
    requires VaryingDepth(b.stack) > 0 ==> VaryingDepth(c0.stack) > 0
    requires UniformSimulates(s, b, s.uniformFlow, c0, c3, Target(s.cases, s.selector(b.uniforms)), k)
    ensures Simulates(s, p, b, e, k)
  {
    forall l: Lane | l < |b.vars|
      ensures Active(c0, l) == Active(b, l)
      ensures l in b.functionMask && !Active(b, l) ==> Idle(c0, c3, l)
    {
    }
    ConstructEnds(s, p, b, e, k);
  }
}
