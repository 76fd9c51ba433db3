/** When control leaves the straight line: what the searches through the control-flow
    stack find, exactly when break, continue and return jump, and what a loop with a
    uniform test does to the masks. */
module JumpConditions {
  import opened Lang
  import opened MaskContext
  import opened StackDiscipline
  import opened LaneInvariant

  // ---------- the searches ----------

  /** The innermost frame that is no if stands at i and is of this kind. */
  predicate InnermostAt(stack: seq<Frame>, kind: FrameKind, i: nat)
  {
    && i < |stack| && stack[i].kind == kind
    && forall j :: i < j < |stack| ==> stack[j].kind == IfFrame
  }

  lemma {:induction false} InSwitchExact(stack: seq<Frame>)
    ensures InSwitch(stack) <==> exists i: nat :: InnermostAt(stack, SwitchFrame, i)
  {
    if stack != [] {
      var n := |stack| - 1;
      if stack[n].kind == IfFrame {
        InSwitchExact(stack[..n]);
        if i: nat :| InnermostAt(stack[..n], SwitchFrame, i) {
          assert InnermostAt(stack, SwitchFrame, i);
        }
        if i: nat :| InnermostAt(stack, SwitchFrame, i) {
          assert InnermostAt(stack[..n], SwitchFrame, i);
        }
      } else if stack[n].kind == SwitchFrame {
        assert InnermostAt(stack, SwitchFrame, n);
      }
    }
  }

  /** Every varying frame is, or encloses, one of this kind. */
  predicate NoVaryingInside(stack: seq<Frame>, kind: FrameKind)
  {
    forall i :: 0 <= i < |stack| && !stack[i].isUniform ==> exists j :: i <= j < |stack| && stack[j].kind == kind
  }

  lemma {:induction false} AllUniformExact(stack: seq<Frame>, kind: FrameKind)
    ensures AllUniformUpTo(stack, kind) <==> NoVaryingInside(stack, kind)
  {
    if stack != [] {
      var n := |stack| - 1;
      if stack[n].kind != kind {
        AllUniformExact(stack[..n], kind);
        if NoVaryingInside(stack[..n], kind) && stack[n].isUniform {
          forall i | 0 <= i < |stack| && !stack[i].isUniform
            ensures exists j :: i <= j < |stack| && stack[j].kind == kind
          {
            assert stack[..n][i] == stack[i];
            var j :| i <= j < n && stack[..n][j].kind == kind;
            assert stack[j].kind == kind;
          }
        }
        if NoVaryingInside(stack, kind) {
          forall i | 0 <= i < n && !stack[..n][i].isUniform
            ensures exists j :: i <= j < n && stack[..n][j].kind == kind
          {
            assert stack[i] == stack[..n][i];
            var j :| i <= j < |stack| && stack[j].kind == kind;
            assert stack[..n][j].kind == kind;
          }
        }
      }
    }
  }

  lemma {:induction false} VaryingDepthExact(stack: seq<Frame>)
    ensures VaryingDepth(stack) == |set i | 0 <= i < |stack| && !stack[i].isUniform|
  {
    if stack != [] {
      var n := |stack| - 1;
      VaryingDepthExact(stack[..n]);
      var below := set i | 0 <= i < n && !stack[..n][i].isUniform;
      var all := set i | 0 <= i < |stack| && !stack[i].isUniform;
      assert all == below + if stack[n].isUniform then {} else {n};
    }
  }

  /** The mask that the last switch on the stack has saved. */
  lemma {:induction false} SwitchEntryExact(stack: seq<Frame>, i: nat)
    requires i < |stack| && stack[i].kind == SwitchFrame
    requires forall j :: i < j < |stack| ==> stack[j].kind != SwitchFrame
    ensures MaskAtSwitchEntry(stack) == stack[i].savedMask
  {
    if i < |stack| - 1 {
      SwitchEntryExact(stack[..|stack| - 1], i);
    }
  }

  // ---------- break, continue and return ----------

  /** A break jumps if nothing varying is between it and its loop, or its switch, the value
      of which has to be uniform. */
  ghost predicate BreaksDirectly(c: Ctx)
  {
    if exists i: nat :: InnermostAt(c.stack, SwitchFrame, i)
    then c.sw.wasUniform && NoVaryingInside(c.stack, SwitchFrame)
    else NoVaryingInside(c.stack, LoopFrame)
  }

  /** A lane of the function mask has stopped before the end of the iteration. */
  ghost predicate Stopped(c: Ctx, l: Lane)
  {
    l in c.functionMask && (l in c.returned || l in Lanes(c.breakLanes) || l in Lanes(c.continueLanes))
  }

  /** What the coherence check asks: the lanes that have stopped are those that were on
      at the entry of the iteration, all of them and no others. */
  ghost predicate AllStopped(c: Ctx)
  {
    forall l: Lane :: Stopped(c, l) <==> l in Lanes(c.entryMask)
  }

  lemma CheckExact(c: Ctx, target: Label)
    requires c.breakLanes.Some?
    ensures JumpIfAllLoopLanesAreDone(c, target) == if AllStopped(c) then c.(control := At(target)) else c
  {
    assert forall l: Lane :: l in FinishedLanes(c) <==> Stopped(c, l);
    assert FinishedLanes(c) == Lanes(c.entryMask) <==> AllStopped(c);
  }

  /** A break jumps to its target exactly if nothing varying is in between; else the active
      lanes are recorded and turned off, and control leaves exactly if a coherence check
      is wanted and finds that all have stopped. */
  lemma BreakExact(c: Ctx, coherent: bool)
    requires c.control == Here && c.breakTarget.Some? && c.breakLanes.Some?
    ensures
      var recorded := c.(breakLanes := Some(c.breakLanes.value + c.internal), internal := {});
      var target := if c.continueTarget.Some? then c.continueTarget.value else c.breakTarget.value;
      DoBreak(c, coherent) ==
        if BreaksDirectly(c) then c.(control := At(c.breakTarget.value))
        else if coherent && AllStopped(recorded) then recorded.(control := At(target))
        else recorded
  {
    InSwitchExact(c.stack);
    AllUniformExact(c.stack, SwitchFrame);
    AllUniformExact(c.stack, LoopFrame);
    var recorded := c.(breakLanes := Some(c.breakLanes.value + c.internal), internal := {});
    assert c.internal + c.breakLanes.value == c.breakLanes.value + c.internal;
    CheckExact(recorded, if c.continueTarget.Some? then c.continueTarget.value else c.breakTarget.value);
    hide JumpIfAllLoopLanesAreDone, AllStopped, NoVaryingInside, InSwitch, AllUniformUpTo;
  }

  lemma ContinueExact(c: Ctx, coherent: bool)
    requires c.control == Here && c.continueTarget.Some? && c.continueLanes.Some? && c.breakLanes.Some?
    ensures
      var recorded := c.(continueLanes := Some(c.continueLanes.value + c.internal), internal := {});
      var target := c.continueTarget.value;
      DoContinue(c, coherent) ==
        if NoVaryingInside(c.stack, LoopFrame) then c.(control := At(target))
        else if coherent && AllStopped(recorded) then recorded.(control := At(target))
        else recorded
  {
    AllUniformExact(c.stack, LoopFrame);
    var recorded := c.(continueLanes := Some(c.continueLanes.value + c.internal), internal := {});
    assert c.internal + c.continueLanes.value == c.continueLanes.value + c.internal;
    CheckExact(recorded, c.continueTarget.value);
    hide JumpIfAllLoopLanesAreDone, AllStopped, NoVaryingInside, AllUniformUpTo;
  }

  /** A return leaves the function exactly if nothing around it is varying, or it is
      coherent and no lane of the function mask is left. */
  lemma ReturnLeaves(c: Ctx, value: Store -> int, coherent: bool)
    requires MaskInv(c) && c.control == Here
    ensures
      DoReturn(c, value, coherent).control == Exited
      <==> (forall i :: 0 <= i < |c.stack| ==> c.stack[i].isUniform)
           || (coherent && forall l: Lane :: l in c.functionMask ==> l in c.returned || l in c.internal)
  {
    VaryingDepthExact(c.stack);
    var varying := set i | 0 <= i < |c.stack| && !c.stack[i].isUniform;
    assert |varying| == 0 <==> varying == {};
    assert forall i :: 0 <= i < |c.stack| ==> (i in varying <==> !c.stack[i].isUniform);
    assert c.functionMask == c.returned + FullMask(c)
        <==> forall l: Lane :: l in c.functionMask ==> l in c.returned || l in c.internal;
  }

  /** The check never finds that all have stopped once a lane has returned before the
      iteration, even when no lane is on: the shortcut is missed from then on. */
  lemma EarlierReturnHidesTheEnd(c: Ctx, coherent: bool, l: Lane)
    requires c.control == Here && c.breakTarget.Some? && c.breakLanes.Some? && !BreaksDirectly(c)
    requires l in c.functionMask && l in c.returned && l !in Lanes(c.entryMask)
    ensures DoBreak(c, coherent).control == Here && DoBreak(c, coherent).internal == {}
  {
    BreakExact(c, coherent);
    assert Stopped(c.(breakLanes := Some(c.breakLanes.value + c.internal), internal := {}), l);
  }

  // ---------- loops with a uniform test ----------

  /** A loop with uniform control flow: break and continue in it jump to its targets with
      the masks as they are, no lanes are recorded, and after its end exactly the lanes
      are on that were on before the end, with the targets of before. */
  lemma UniformLoopExact(c: Ctx, bt: Label, ct: Label, c2: Ctx, coherent: bool)
    requires c.control == Here
    requires SameFrame(StartLoop(c, bt, ct, true).(entryMask := c2.entryMask), c2)
    ensures
      var c1 := StartLoop(c, bt, ct, true);
      && c1.internal == c.internal && c1.returned == c.returned && c1.breakLanes == c1.continueLanes == None
      && DoBreak(c1, coherent) == c1.(control := At(bt)) && DoContinue(c1, coherent) == c1.(control := At(ct))
    ensures EndLoop(c2).internal == c2.internal && FullMask(EndLoop(c2)) == FullMask(c2)
    ensures EndLoop(c2).returned == c2.returned && EndLoop(c2).control == c2.control && EndLoop(c2).vars == c2.vars
    ensures SameFrame(c, EndLoop(c2))
  {
    PushedFrame(c, LoopFrame, true, c.internal);
  }
}
