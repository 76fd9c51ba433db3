/** What holds of the masks at every point of a run, and what one lane sees. */
module LaneInvariant {
  import opened Lang
  import opened MaskContext
  import opened MaskedRun
  import opened StackDiscipline

  // ---------- the mask invariant ----------

  /** Within the function mask a lane is active, returned, broken or continued,
      and never two of these. */
  ghost predicate OneRole(c: Ctx, l: Lane)
  {
    && (l in c.internal ==> l !in c.returned && l !in Lanes(c.breakLanes) && l !in Lanes(c.continueLanes))
    && (l in c.returned ==> l !in Lanes(c.breakLanes) && l !in Lanes(c.continueLanes))
    && (l in Lanes(c.breakLanes) ==> l !in Lanes(c.continueLanes))
  }

  ghost predicate MaskInv(c: Ctx)
  {
    && |c.ret| == |c.vars|
    && c.functionMask <= AllOn(c) && c.internal <= AllOn(c) && Lanes(c.continueLanes) <= AllOn(c)
    && c.returned <= c.functionMask
    && forall l: Lane :: l in c.functionMask ==> OneRole(c, l)
  }

  /** The bookkeeping of targets fits the control-flow stack. */
  ghost predicate TargetInv(c: Ctx)
  {
    && Linked(c)
    && (c.breakTarget.None? ==> c.breakLanes.None? && c.continueTarget.None?)
    && (c.continueTarget.None? ==> c.continueLanes.None?)
    && (c.breakTarget.Some? ==>
          c.entryMask.Some? && c.breakTarget.value.depth < |c.stack| && c.breakTarget != c.continueTarget
          && InSwitch(c.stack) == c.continueTarget.None?)
    && (c.continueTarget.Some? ==> c.continueTarget.value.depth < |c.stack| && VaryingDepth(c.stack) > 0)
  }

  /** At a point that control reaches: active lanes lie in the block-entry mask, and
      outside varying control flow every lane is active or has returned. */
  ghost predicate ActiveInv(c: Ctx)
  {
    && (c.breakTarget.Some? ==> FullMask(c) <= Lanes(c.entryMask))
    && (VaryingDepth(c.stack) == 0 ==> c.functionMask <= c.internal + c.returned)
  }

  ghost predicate Inv(c: Ctx)
  {
    MaskInv(c) && TargetInv(c) && (c.control == Here ==> ActiveInv(c))
  }

  predicate BreakJumps(c: Ctx)
  {
    BreakJumpsFromSwitch(c) || BreakJumpsFromLoop(c)
  }

  /** The static place of a statement agrees with the emitter's bookkeeping. */
  ghost predicate Fits(p: Place, c: Ctx)
  {
    && p.canBreak == c.breakTarget.Some? && p.canContinue == c.continueTarget.Some?
    && (p.canBreak ==> p.jumps == BreakJumps(c))
    && (p.canBreak && VaryingDepth(c.stack) == 0 ==> p.onlyJumps)
  }

  // ---------- what a run means for one lane ----------

  ghost predicate Active(c: Ctx, l: Lane)
  {
    l in c.functionMask && l in c.internal
  }

  /** What the masks say a lane is doing. */
  ghost function Role(c: Ctx, l: Lane): Outcome
    requires l < |c.ret|
  {
    if c.control == Exited || l in c.returned then Returned(c.ret[l])
    else if l in Lanes(c.breakLanes) then Broke
    else if l in Lanes(c.continueLanes) then Continued
    else if c.control == Here then Normal
    else if c.control.At? && Some(c.control.target) == c.breakTarget then Broke
    else Continued
  }

  ghost predicate Accounted(c: Ctx, l: Lane)
  {
    c.control == Exited || l in c.internal || l in c.returned
    || l in Lanes(c.breakLanes) || l in Lanes(c.continueLanes)
  }

  /** From c to c1 lane l did what its own scalar run r does. */
  ghost predicate Did(c: Ctx, c1: Ctx, l: Lane, r: LaneState)
    requires |c1.vars| == |c.vars| && |c.ret| == |c1.ret| == |c.vars| && l < |c.vars|
  {
    && r.outcome != Unfinished
    && c1.vars[l] == r.store
    && Role(c1, l) == r.outcome
    && Accounted(c1, l)
    && (!r.outcome.Returned? ==> c1.ret[l] == c.ret[l])
  }

  /** From c to c1 lane l did nothing. */
  ghost predicate Idle(c: Ctx, c1: Ctx, l: Lane)
    requires |c1.vars| == |c.vars| && |c.ret| == |c1.ret| == |c.vars| && l < |c.vars|
  {
    && c1.vars[l] == c.vars[l] && c1.ret[l] == c.ret[l] && l !in c1.internal
    && (l in c1.returned <==> l in c.returned)
    && (l in Lanes(c1.breakLanes) <==> l in Lanes(c.breakLanes))
    && (l in Lanes(c1.continueLanes) <==> l in Lanes(c.continueLanes))
  }

  /** From c to c1, the end of a loop or switch, lane l left the construct with r. */
  ghost predicate LeftWith(c: Ctx, c1: Ctx, l: Lane, r: LaneState)
    requires |c1.vars| == |c.vars| && |c.ret| == |c1.ret| == |c.vars| && l < |c.vars|
  {
    && c1.vars[l] == r.store
    && (r.outcome.Normal? || r.outcome.Returned?)
    && (r.outcome.Returned? <==> c1.control == Exited || l in c1.returned)
    && (if r.outcome.Returned? then c1.ret[l] == r.outcome.result else c1.ret[l] == c.ret[l])
  }

  ghost predicate Finished(c: Ctx, l: Lane)
  {
    l in c.returned || l in Lanes(c.breakLanes) || l in Lanes(c.continueLanes)
  }

  /** Jumping is sound: when the path has left for a target, no lane that a skipped
      EndIf or case label could turn back on is waiting. */
  ghost predicate JumpsSound(p: Place, c: Ctx, c1: Ctx)
  {
    && (c1.control.At? ==> Some(c1.control.target) == c.breakTarget || Some(c1.control.target) == c.continueTarget)
    && (c1.control.At? && !p.jumps ==>
          forall l: Lane :: l in c.functionMask && l in Lanes(c.entryMask) ==> Finished(c1, l))
    && (c1.control == Exited && VaryingDepth(c.stack) > 0 ==> c.functionMask <= c1.returned + c1.internal)
    && (p.onlyJumps ==> c1.breakLanes == c.breakLanes)
  }

  ghost predicate Untouched(c: Ctx, c1: Ctx)
    requires |c1.vars| == |c.vars| && |c.ret| == |c1.ret| == |c.vars|
  {
    forall l: Lane :: l < |c.vars| ==>
      if l in c.functionMask then l in c.internal || Idle(c, c1, l) else c1.vars[l] == c.vars[l]
  }

  /** Everything one statement's masked run owes to the scalar runs of its lanes.  The
      masks keep track of every lane; only what a lane that was left behind by a break
      jump computes is not claimed to be its own run. */
  ghost predicate Simulates(s: Stmt, p: Place, c: Ctx, c1: Ctx, k: nat)
  {
    && MaskInv(c) && SameFrame(c, c1) && Inv(c1)
    && JumpsSound(p, c, c1)
    && Untouched(c, c1)
    && (c1.control == Stuck ==>
          exists l: Lane ::
            Active(c, l) && (l in c1.lost || RunLane(s, c.uniforms, c.vars[l], k).outcome == Unfinished))
    && (c1.control != Stuck ==>
          forall l: Lane :: Active(c, l) ==>
            Accounted(c1, l) && (l !in c1.lost ==> Did(c, c1, l, RunLane(s, c.uniforms, c.vars[l], k))))
  }

  lemma PushedFrame(c: Ctx, kind: FrameKind, isUniform: bool, m: Mask)
    ensures
      var c1 := Push(c, kind, isUniform, m);
      Rest(c1.stack) == c.stack && Top(c1.stack).kind == kind && Top(c1.stack).isUniform == isUniform
      && Top(c1.stack).savedMask == m
  {
  }

  lemma OnlyActiveStay(c: Ctx, c1: Ctx)
    requires MaskInv(c) && SameFrame(c, c1) && MaskInv(c1) && Untouched(c, c1)
    ensures forall l: Lane :: Active(c1, l) ==> Active(c, l)
  {
    forall l: Lane | l in c.functionMask && l !in c.internal
      ensures l !in c1.internal
    {
      assert Idle(c, c1, l);
    }
  }

  lemma StaysReady(s: Stmt, p: Place, c: Ctx, c1: Ctx)
    requires Fits(p, c) && SameFrame(c, c1) && Inv(c1) && c1.control == Here && WellFormed(s, p)
    ensures Ready(s, p, c1)
  {
  }

  /** Two runs in a row compose for a lane that was active at the start. */
  lemma ThenDid(p: Place, c: Ctx, c1: Ctx, c2: Ctx, l: Lane, r1: LaneState, r2: LaneState)
    requires Inv(c) && Inv(c1) && Inv(c2) && SameFrame(c, c1) && SameFrame(c1, c2) && Active(c, l)
    requires c1.control == Here && c2.control != Stuck && JumpsSound(p, c1, c2)
    requires Did(c, c1, l, r1)
    requires if Active(c1, l) then Did(c1, c2, l, r2) else Idle(c1, c2, l)
    ensures r1.outcome.Normal? <==> Active(c1, l)
    ensures Did(c, c2, l, if r1.outcome.Normal? then r2 else r1)
  {
    assert OneRole(c1, l) && OneRole(c2, l);
  }

  /** A lane that the masks keep track of stays so, whether or not it takes part. */
  lemma ThenAccounted(c: Ctx, c1: Ctx, c2: Ctx, l: Lane)
    requires MaskInv(c1) && SameFrame(c1, c2) && c1.control == Here && l in c.functionMask
    requires c1.functionMask == c.functionMask && Accounted(c1, l) && l < |c1.vars|
    requires if Active(c1, l) then Accounted(c2, l) else Idle(c1, c2, l)
    ensures Accounted(c2, l)
  {
  }

  lemma ThenUntouched(c: Ctx, c1: Ctx, c2: Ctx)
    requires MaskInv(c) && MaskInv(c1) && MaskInv(c2) && SameFrame(c, c1) && SameFrame(c1, c2)
    requires Untouched(c, c1) && Untouched(c1, c2)
    ensures Untouched(c, c2)
  {
  }

  lemma ThenJumps(p: Place, c: Ctx, c1: Ctx, c2: Ctx)
    requires SameFrame(c, c1) && SameFrame(c1, c2) && c1.control == Here
    requires JumpsSound(p, c, c1) && JumpsSound(p, c1, c2)
    ensures JumpsSound(p, c, c2)
  {
  }

  /** What a statement's run may rely on. */
  ghost predicate Ready(s: Stmt, p: Place, c: Ctx)
  {
    Inv(c) && Fits(p, c) && WellFormed(s, p) && c.control == Here
  }

  /** c1 is c after a loop or switch: the targets are back, the masks are restored. */
  ghost predicate Restored(c: Ctx, c1: Ctx)
  {
    && c1 == c.(internal := c1.internal, returned := c1.returned, control := c1.control,
                vars := c1.vars, ret := c1.ret, lost := c1.lost)
    && |c1.vars| == |c.vars| && |c1.ret| == |c.ret|
    && c.lost <= c1.lost && c.returned <= c1.returned <= c.functionMask
    && c1.internal <= AllOn(c) && !c1.control.At?
    && forall l: Lane :: l in c.functionMask ==>
         (l in c1.internal ==> l in c.internal && l !in c1.returned)
         && (c1.control == Here && l in c.internal && l !in c1.returned ==> l in c1.internal)
  }

  /** A loop or a switch simulates its lanes if each of them left it with its own result. */
  lemma {:induction false} ConstructEnds(s: Stmt, p: Place, c: Ctx, c1: Ctx, k: nat)
    requires Ready(s, p, c) && Restored(c, c1)
    requires c1.control == Exited && VaryingDepth(c.stack) > 0 ==> c.functionMask <= c1.returned + c1.internal
    requires forall l: Lane :: l < |c.vars| && !Active(c, l) ==>
        c1.vars[l] == c.vars[l]
        && (l in c.functionMask ==> c1.ret[l] == c.ret[l] && (l in c1.returned <==> l in c.returned))
    requires c1.control == Stuck ==>
        exists l: Lane :: Active(c, l) && (l in c1.lost || RunLane(s, c.uniforms, c.vars[l], k).outcome == Unfinished)
    requires c1.control != Stuck ==>
        forall l: Lane :: Active(c, l) && l !in c1.lost ==> LeftWith(c, c1, l, RunLane(s, c.uniforms, c.vars[l], k))
    ensures Simulates(s, p, c, c1, k)
  {
    forall l: Lane | l in c.functionMask
      ensures OneRole(c1, l)
      ensures !Active(c, l) ==> Idle(c, c1, l)
      ensures c1.control != Stuck && Active(c, l) ==> Accounted(c1, l)
      ensures c1.control != Stuck && Active(c, l) && l !in c1.lost ==>
          Did(c, c1, l, RunLane(s, c.uniforms, c.vars[l], k))
      ensures c1.control == Here && VaryingDepth(c.stack) == 0 ==> l in c1.internal || l in c1.returned
    {
      assert OneRole(c, l);
    }
  }

  /** s is run correctly from every state it may meet at this place. */
  ghost predicate Sound(s: Stmt, p: Place, k: nat)
  {
    forall c: Ctx :: Ready(s, p, c) ==> Simulates(s, p, c, Run(s, c, k), k)
  }
}
