/** A varying loop: the gang iterates until no lane wants another iteration, and
    each lane sees exactly its own iterations. */
module LoopSimulation {
  import opened Lang
  import opened MaskContext
  import opened MaskedRun
  import opened StackDiscipline
  import opened LaneInvariant

  const LoopBody := Place(true, true, true, false)

  /** The state in front of the loop test: nobody is parked. */
  ghost predicate AtHead(c: Ctx)
  {
    && MaskInv(c) && c.control == Here
    && c.breakLanes == Some({}) && c.continueLanes == Some({})
    && c.breakTarget.Some? && c.continueTarget.Some? && c.breakTarget != c.continueTarget
    && c.breakTarget.value.depth < |c.stack| && c.continueTarget.value.depth < |c.stack|
    && c.stack != [] && Top(c.stack).kind == LoopFrame && !Top(c.stack).isUniform
  }

  /** SameFrame, but for the block-entry mask that each iteration sets. */
  ghost predicate SameLoop(c: Ctx, c1: Ctx)
  {
    SameFrame(c, c1.(entryMask := c.entryMask))
  }

  ghost predicate LoopSimulates(s: Stmt, c: Ctx, c1: Ctx, n: nat, k: nat)
    requires s.Loop?
  {
    && MaskInv(c) && MaskInv(c1) && SameLoop(c, c1) && Untouched(c, c1)
    && (c1.control == Exited ==> c.functionMask <= c1.returned + c1.internal)
    && (c1.control.At? ==> Some(c1.control.target) == c.breakTarget)
    && (c1.control == Stuck ==>
          exists l: Lane :: Active(c, l)
            && (l in c1.lost || RunLaneLoop(s, c.uniforms, c.vars[l], n, k).outcome == Unfinished))
    && (c1.control != Stuck ==>
          forall l: Lane :: Active(c, l) && l !in c1.lost ==>
            LeftWith(c, c1, l, RunLaneLoop(s, c.uniforms, c.vars[l], n, k)))
  }

  lemma BodyReady(s: Stmt, c: Ctx)
    requires s.Loop? && AtHead(c) && WellFormed(s.body, LoopBody)
    ensures Ready(s.body, LoopBody, BodyStart(s, c))
  {
    var c1 := BodyStart(s, c);
    assert forall l: Lane :: l in c.functionMask ==> OneRole(c, l);
    assert VaryingDepth(c1.stack) > 0;
  }

  lemma {:induction false} LoopRuns(s: Stmt, c: Ctx, n: nat, k: nat)
    requires s.Loop? && AtHead(c) && WellFormed(s.body, LoopBody) && Sound(s.body, LoopBody, k)
    ensures LoopSimulates(s, c, RunLoop(s, c, n, k), n, k)
    decreases n, 1
  {
    if FullMask(Tested(s, c)) == {} || n == 0 {
      LoopStops(s, c, n, k);
    } else {
      var c2 := Run(s.body, BodyStart(s, c), k);
      BodyReady(s, c);
      if Stays(c2) {
        OneMoreIteration(s, c, c2, n, k);
      } else {
        BodyLeaves(s, c, c2, n, k);
      }
    }
  }

  lemma {:induction false} OneMoreIteration(s: Stmt, c: Ctx, c2: Ctx, n: nat, k: nat)
    requires s.Loop? && AtHead(c) && WellFormed(s.body, LoopBody) && Sound(s.body, LoopBody, k) && n > 0
    requires Simulates(s.body, LoopBody, BodyStart(s, c), c2, k) && Stays(c2)
    ensures
      LoopSimulates(s, c, RunLoop(s, NextHead(s, c2), n - 1, k), n, k)
    decreases n, 0
  {
    var c5 := NextHead(s, c2);
    NextIteration(s, c, c2, k);
    LoopRuns(s, c5, n - 1, k);
    ThenLoops(s, c, c5, RunLoop(s, c5, n - 1, k), n, k);
  }

  /** One iteration and then the remaining ones, as every lane sees them. */
  lemma {:induction false} ThenLoops(s: Stmt, c: Ctx, c5: Ctx, c6: Ctx, n: nat, k: nat)
    requires s.Loop? && AtHead(c) && Iterated(s, c, c5, k) && n > 0
    requires LoopSimulates(s, c5, c6, n - 1, k)
    ensures LoopSimulates(s, c, c6, n, k)
  {
    forall l: Lane | l in c.functionMask
      ensures Active(c, l) && c6.control != Stuck && l !in c6.lost ==>
          LeftWith(c, c6, l, RunLaneLoop(s, c.uniforms, c.vars[l], n, k))
    {
      assert OneRole(c, l) && OneRole(c5, l) && OneRole(c6, l);
      assert !Active(c5, l) ==> Idle(c5, c6, l);
    }
    ThenUntouched(c, c5.(entryMask := c.entryMask), c6.(entryMask := c.entryMask));
    if c6.control == Stuck {
      var l: Lane :| Active(c5, l)
        && (l in c6.lost || RunLaneLoop(s, c5.uniforms, c5.vars[l], n - 1, k).outcome == Unfinished);
      assert Active(c, l);
      assert l in c6.lost || RunLaneLoop(s, c.uniforms, c.vars[l], n, k).outcome == Unfinished;
    }
  }

  lemma {:induction false} LoopStops(s: Stmt, c: Ctx, n: nat, k: nat)
    requires s.Loop? && AtHead(c) && (FullMask(Tested(s, c)) == {} || n == 0)
    ensures LoopSimulates(s, c, RunLoop(s, c, n, k), n, k)
  {
    var c1 := Tested(s, c);
    assert forall l: Lane :: l in c.functionMask ==> OneRole(c, l);
    assert forall l: Lane :: l in FullMask(c1) <==> Active(c, l) && s.test(c.vars[l]);
    if FullMask(c1) != {} {
      var l :| l in FullMask(c1);
      assert RunLaneLoop(s, c.uniforms, c.vars[l], n, k).outcome == Unfinished;
    }
  }

  /** The body left the loop, by the break jump or for good, or it never ended. */
  lemma {:induction false} BodyLeaves(s: Stmt, c: Ctx, c2: Ctx, n: nat, k: nat)
    requires s.Loop? && AtHead(c) && n > 0
    requires Simulates(s.body, LoopBody, BodyStart(s, c), c2, k)
    requires !Stays(c2)
    ensures LoopSimulates(s, c, LeaveLoop(c2), n, k)
  {
    var c3 := LeaveLoop(c2);
    assert c3.control.At? ==> forall l: Lane :: l in c.functionMask && l in Lanes(c2.continueLanes) ==> l in c3.lost;
    var c1 := BodyStart(s, c);
    forall l: Lane | l in c.functionMask
      ensures Active(c, l) && c2.control != Stuck && l !in c3.lost ==>
          LeftWith(c, c3, l, RunLaneLoop(s, c.uniforms, c.vars[l], n, k))
    {
      assert OneRole(c, l) && OneRole(c2, l);
      if Active(c, l) && !s.test(c.vars[l]) {
        assert Idle(c1, c2, l);
      } else if Active(c, l) {
        assert Active(c1, l);
      }
    }
    if c2.control == Stuck {
      var l: Lane :| Active(c1, l)
        && (l in c2.lost || RunLane(s.body, c.uniforms, c.vars[l], k).outcome == Unfinished);
      assert Active(c, l);
      assert l in c3.lost || RunLaneLoop(s, c.uniforms, c.vars[l], n, k).outcome == Unfinished;
    }
  }

  ghost predicate IterationDid(s: Stmt, c: Ctx, c5: Ctx, l: Lane, r: LaneState)
    requires s.Loop?
    requires |c5.vars| == |c.vars| && |c.ret| == |c5.ret| == |c.vars| && l < |c.vars|
  {
    match r.outcome
    case Returned(v) => !Active(c5, l) && l in c5.returned && c5.vars[l] == r.store && c5.ret[l] == v
    case Broke => !Active(c5, l) && l !in c5.returned && c5.vars[l] == r.store && c5.ret[l] == c.ret[l]
    case Unfinished => false
    case _ => Active(c5, l) && c5.vars[l] == r.store[s.stepVar := s.stepRhs(r.store)] && c5.ret[l] == c.ret[l]
  }

  /** From one loop head to the next: the lanes still active are those whose own
      body ran to its end or continued. */
  ghost predicate Iterated(s: Stmt, c: Ctx, c5: Ctx, k: nat)
    requires s.Loop?
  {
    && MaskInv(c) && AtHead(c5) && SameLoop(c, c5) && Untouched(c, c5)
    && (forall l: Lane :: Active(c, l) && l !in c5.lost ==>
          if s.test(c.vars[l]) then IterationDid(s, c, c5, l, RunLane(s.body, c.uniforms, c.vars[l], k))
          else Idle(c, c5, l))
    && (forall l: Lane :: Active(c5, l) ==> Active(c, l))
  }

  lemma {:induction false} NextIteration(s: Stmt, c: Ctx, c2: Ctx, k: nat)
    requires s.Loop? && AtHead(c) && Simulates(s.body, LoopBody, BodyStart(s, c), c2, k)
    requires Stays(c2)
    ensures Iterated(s, c, NextHead(s, c2), k)
  {
    var c1 := BodyStart(s, c);
    var c5 := NextHead(s, c2);
    forall l: Lane | l in c.functionMask
      ensures OneRole(c5, l)
      ensures Active(c5, l) ==> Active(c, l)
      ensures !Active(c, l) ==> Idle(c, c5, l)
      ensures Active(c, l) && l !in c5.lost ==>
          if s.test(c.vars[l]) then IterationDid(s, c, c5, l, RunLane(s.body, c.uniforms, c.vars[l], k))
          else Idle(c, c5, l)
    {
      assert OneRole(c, l) && OneRole(c2, l);
      if !Active(c1, l) {
        assert Idle(c1, c2, l);
      } else {
        assert l !in c5.lost ==> Did(c1, c2, l, RunLane(s.body, c.uniforms, c.vars[l], k));
      }
    }
  }

  // ---------- the loop statement ----------

  lemma {:induction false} LoopSimulatesLanes(s: Stmt, p: Place, c: Ctx, k: nat)
    requires s.Loop? && Ready(s, p, c) && Sound(s.body, LoopBody, k)
    ensures Simulates(s, p, c, Run(s, c, k), k)
  {
    var depth := |c.stack|;
    var c0 := StartLoop(c, BreakBlock(depth), ContinueBlock(depth), false);
    LoopDiscipline(s, c0, k, k);
    var c1 := RunLoop(s, c0, k, k);
    HeadOfLoop(c);
    LoopRuns(s, c0, k, k);
    LoopEnds(s, p, c, c1, k);
  }

  lemma HeadOfLoop(c: Ctx)
    requires MaskInv(c) && c.control == Here
    ensures AtHead(StartLoop(c, BreakBlock(|c.stack|), ContinueBlock(|c.stack|), false))
  {
    PushedFrame(c, LoopFrame, false, c.internal);
  }

  /** EndLoop turns back on exactly the lanes that were active and have not returned. */
  lemma EndLoopRestores(c: Ctx, c1: Ctx)
    requires SameLoop(StartLoop(c, BreakBlock(|c.stack|), ContinueBlock(|c.stack|), false), c1)
    requires MaskInv(c) && MaskInv(c1) && !c1.control.At?
    requires Untouched(StartLoop(c, BreakBlock(|c.stack|), ContinueBlock(|c.stack|), false), c1)
    ensures Restored(c, EndLoop(c1))
    ensures c1.control != Here ==> EndLoop(c1).internal == c1.internal
    ensures EndLoop(c1).control == c1.control && EndLoop(c1).returned == c1.returned
    ensures EndLoop(c1).vars == c1.vars && EndLoop(c1).ret == c1.ret
  {
    PushedFrame(c, LoopFrame, false, c.internal);
    assert forall l: Lane :: l in c.functionMask ==> OneRole(c1, l);
  }

  lemma {:induction false} LoopEnds(s: Stmt, p: Place, c: Ctx, c1: Ctx, k: nat)
    requires s.Loop? && Ready(s, p, c)
    requires LoopSimulates(s, StartLoop(c, BreakBlock(|c.stack|), ContinueBlock(|c.stack|), false), c1, k, k)
    ensures Simulates(s, p, c, EndLoop(ArriveAt(c1, BreakBlock(|c.stack|))), k)
  {
    var c0 := StartLoop(c, BreakBlock(|c.stack|), ContinueBlock(|c.stack|), false);
    var c2 := ArriveAt(c1, BreakBlock(|c.stack|));
    EndLoopRestores(c, c2);
    forall l: Lane | l < |c.vars|
      ensures Active(c0, l) == Active(c, l)
      ensures l in c.functionMask && !Active(c, l) ==> Idle(c0, c1, l)
    {
    }
    ConstructEnds(s, p, c, EndLoop(c2), k);
  }
}
