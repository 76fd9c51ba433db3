/** The masked run of any statement, projected on one lane, is that lane's own run. */
module LaneSimulation {
  import opened Lang
  import opened MaskContext
  import opened MaskedRun
  import opened StackDiscipline
  import opened LaneInvariant
  import opened LoopSimulation
  import opened SwitchLabels
  import opened SwitchSimulation

  lemma {:induction false} Simulate(s: Stmt, p: Place, c: Ctx, k: nat)
    requires Ready(s, p, c)
    ensures Simulates(s, p, c, Run(s, c, k), k)
    decreases s, 1, 0
  {
    match s
    case Assign(_, _) => AssignSimulates(s, p, c, k);
    case Seq(_, _) => SeqSimulates(s, p, c, k);
    case UniformIf(_, _, _) => UniformIfSimulates(s, p, c, k);
    case VaryingIf(_, _, _, _) => VaryingIfSimulates(s, p, c, k);
    case Loop(_, _, _, body) =>
      BodySound(body, LoopBody, k);
      LoopSimulatesLanes(s, p, c, k);
    case Break(_) => BreakSimulates(s, p, c, k);
    case Continue(_) => ContinueSimulates(s, p, c, k);
    case Return(_, _) => ReturnSimulates(s, p, c, k);
    case VaryingSwitch(_, cases) =>
      forall i | 0 <= i < |cases| { BodySound(cases[i].body, VaryingBody, k); }
      VaryingSwitchSimulation(s, p, c, k);
    case UniformSwitch(_, uniformFlow, cases) =>
      forall i | 0 <= i < |cases| { BodySound(cases[i].body, UniformBody(uniformFlow), k); }
      UniformSwitchSimulation(s, p, c, k);
  }

  lemma {:induction false} BodySound(body: Stmt, p: Place, k: nat)
    ensures Sound(body, p, k)
    decreases body, 2, 0
  {
    forall c: Ctx | Ready(body, p, c)
      ensures Simulates(body, p, c, Run(body, c, k), k)
    {
      Simulate(body, p, c, k);
    }
  }

  lemma {:induction false} AssignSimulates(s: Stmt, p: Place, c: Ctx, k: nat)
    requires s.Assign? && Ready(s, p, c)
    ensures Simulates(s, p, c, Run(s, c, k), k)
  {
  }

  lemma {:induction false} BreakSimulates(s: Stmt, p: Place, c: Ctx, k: nat)
    requires s.Break? && Ready(s, p, c)
    ensures Simulates(s, p, c, Run(s, c, k), k)
  {
    Discipline(s, c, k);
  }

  lemma {:induction false} ContinueSimulates(s: Stmt, p: Place, c: Ctx, k: nat)
    requires s.Continue? && Ready(s, p, c)
    ensures Simulates(s, p, c, Run(s, c, k), k)
  {
    Discipline(s, c, k);
  }

  lemma {:induction false} ReturnSimulates(s: Stmt, p: Place, c: Ctx, k: nat)
    requires s.Return? && Ready(s, p, c)
    ensures Simulates(s, p, c, Run(s, c, k), k)
  {
    Discipline(s, c, k);
  }

  lemma {:induction false} SeqSimulates(s: Stmt, p: Place, c: Ctx, k: nat)
    requires s.Seq? && Ready(s, p, c)
    ensures Simulates(s, p, c, Run(s, c, k), k)
    decreases s, 0, 0
  {
    var c1 := Run(s.first, c, k);
    Simulate(s.first, p, c, k);
    if c1.control == Here {
      StaysReady(s.second, p, c, c1);
      Simulate(s.second, p, c1, k);
      ThenSimulates(s, p, c, c1, Run(s.second, c1, k), k);
    }
  }

  lemma {:induction false} ThenSimulates(s: Stmt, p: Place, c: Ctx, c1: Ctx, c2: Ctx, k: nat)
    requires s.Seq? && Inv(c) && c1.control == Here
    requires Simulates(s.first, p, c, c1, k) && Simulates(s.second, p, c1, c2, k)
    ensures Simulates(s, p, c, c2, k)
  {
    ThenUntouched(c, c1, c2);
    ThenJumps(p, c, c1, c2);
    forall l: Lane | Active(c, l)
      ensures c2.control != Stuck ==> Accounted(c2, l)
      ensures c2.control != Stuck && l !in c2.lost ==> Did(c, c2, l, RunLane(s, c.uniforms, c.vars[l], k))
    {
      if c2.control != Stuck {
        ThenAccounted(c, c1, c2, l);
      }
      if c2.control != Stuck && l !in c2.lost {
        ThenDid(p, c, c1, c2, l, RunLane(s.first, c.uniforms, c.vars[l], k),
                RunLane(s.second, c.uniforms, c1.vars[l], k));
      }
    }
    if c2.control == Stuck {
      var l: Lane :| Active(c1, l)
        && (l in c2.lost || RunLane(s.second, c.uniforms, c1.vars[l], k).outcome == Unfinished);
      assert Active(c, l) && OneRole(c1, l);
      assert l !in c1.lost ==> Did(c, c1, l, RunLane(s.first, c.uniforms, c.vars[l], k));
      assert l in c2.lost || RunLane(s, c.uniforms, c.vars[l], k).outcome == Unfinished;
    }
  }

  /** A statement that is branched around because its mask is all off. */
  lemma {:induction false} SkipSimulates(s: Stmt, p: Place, c: Ctx, k: nat)
    requires Inv(c) && c.control == Here && FullMask(c) == {}
    ensures Simulates(s, p, c, c, k)
  {
    assert forall l: Lane :: l in FullMask(c) <==> Active(c, l);
  }

  // ---------- if ----------

  lemma EndIfJustPops(c: Ctx)
    requires c.stack != [] && Top(c.stack).kind == IfFrame && (Top(c.stack).isUniform || c.control != Here)
    ensures EndIf(c) == c.(stack := Rest(c.stack))
  {
  }

  lemma UniformIfReady(s: Stmt, p: Place, c: Ctx)
    requires s.UniformIf? && Ready(s, p, c)
    ensures Ready(if s.utest(c.uniforms) then s.thn else s.els, p, StartUniformIf(c))
  {
    PushedFrame(c, IfFrame, true, c.internal);
  }

  lemma {:induction false} UniformIfSimulates(s: Stmt, p: Place, c: Ctx, k: nat)
    requires s.UniformIf? && Ready(s, p, c)
    ensures Simulates(s, p, c, Run(s, c, k), k)
    decreases s, 0, 0
  {
    var side := if s.utest(c.uniforms) then s.thn else s.els;
    var c1 := StartUniformIf(c);
    UniformIfReady(s, p, c);
    Discipline(side, c1, k);
    PushedFrame(c, IfFrame, true, c.internal);
    EndIfJustPops(Run(side, c1, k));
    assert EndIf(Run(side, c1, k)).stack == c.stack;
    Simulate(side, p, c1, k);
    UniformIfPops(s, p, c, Run(side, c1, k), k);
  }

  lemma {:induction false} UniformIfPops(s: Stmt, p: Place, c: Ctx, c2: Ctx, k: nat)
    requires s.UniformIf? && Ready(s, p, c)
    requires Simulates(if s.utest(c.uniforms) then s.thn else s.els, p, StartUniformIf(c), c2, k)
    ensures Simulates(s, p, c, c2.(stack := c.stack), k)
  {
    PushedFrame(c, IfFrame, true, c.internal);
    var c3 := c2.(stack := c.stack);
    forall l: Lane | Active(c, l)
      ensures c3.control != Stuck ==> Accounted(c3, l)
      ensures c3.control != Stuck && l !in c3.lost ==> Did(c, c3, l, RunLane(s, c.uniforms, c.vars[l], k))
    {
      assert Active(StartUniformIf(c), l);
    }
  }

  lemma {:induction false} TrueSideReady(s: Stmt, p: Place, c: Ctx)
    requires s.VaryingIf? && Ready(s, p, c)
    ensures Ready(s.thn, p.(jumps := false), TrueSide(s, c))
  {
    PushedFrame(c, IfFrame, false, c.internal);
  }

  lemma {:induction false} SideSimulates(side: Stmt, p: Place, c: Ctx, anyCheck: bool, k: nat)
    requires Ready(side, p, c)
    ensures Simulates(side, p, c, RunSide(side, c, anyCheck, k), k)
    decreases side, 2, 0
  {
    if anyCheck && FullMask(c) == {} {
      SkipSimulates(side, p, c, k);
    } else {
      Simulate(side, p, c, k);
    }
  }

  lemma {:induction false} VaryingIfSimulates(s: Stmt, p: Place, c: Ctx, k: nat)
    requires s.VaryingIf? && Ready(s, p, c)
    ensures Simulates(s, p, c, Run(s, c, k), k)
    decreases s, 0, 0
  {
    var p1 := p.(jumps := false);
    var c1 := TrueSide(s, c);
    TrueSideReady(s, p, c);
    var c2 := RunSide(s.thn, c1, s.anyCheck, k);
    if c2.control != Here {
      Discipline(s.thn, c1, k);
      EndIfJustPops(c2);
      SideSimulates(s.thn, p1, c1, s.anyCheck, k);
      LeavesFromTrueSide(s, p, c, c2, k);
    } else {
      var c3 := FalseSide(s, c, c2);
      SideSimulates(s.thn, p1, c1, s.anyCheck, k);
      FalseSideReady(s, p, c, c2, k);
      var c4 := RunSide(s.els, c3, s.anyCheck, k);
      SideSimulates(s.els, p1, c3, s.anyCheck, k);
      BothSides(s, p, c, c2, c4, k);
    }
  }

  lemma {:induction false} FalseSideReady(s: Stmt, p: Place, c: Ctx, c2: Ctx, k: nat)
    requires s.VaryingIf? && Ready(s, p, c) && c2.control == Here
    requires Simulates(s.thn, p.(jumps := false), TrueSide(s, c), c2, k)
    ensures Ready(s.els, p.(jumps := false), FalseSide(s, c, c2))
  {
    TrueSideReady(s, p, c);
    var c3 := FalseSide(s, c, c2);
    forall l: Lane | l in c.functionMask
      ensures OneRole(c3, l)
    {
      assert OneRole(c, l) && OneRole(c2, l);
      if l in c3.internal {
        assert Idle(TrueSide(s, c), c2, l);
      }
    }
  }

  /** The two sides together, one lane at a time. */
  lemma {:induction false} OneSideDid(s: Stmt, p: Place, c: Ctx, c2: Ctx, c4: Ctx, l: Lane, k: nat)
    requires s.VaryingIf? && Ready(s, p, c) && c2.control == Here && c4.control != Stuck
    requires Simulates(s.thn, p.(jumps := false), TrueSide(s, c), c2, k)
    requires Simulates(s.els, p.(jumps := false), FalseSide(s, c, c2), c4, k)
    requires Active(c, l) && l !in c4.lost
    ensures
      var r := RunLane(s, c.uniforms, c.vars[l], k);
      c4.vars[l] == r.store && r.outcome != Unfinished
      && (r.outcome.Normal? ==> c4.control == Here && !Finished(c4, l))
      && (!r.outcome.Normal? ==> Role(c4, l) == r.outcome && (c4.control == Exited || Finished(c4, l)))
      && (!r.outcome.Returned? ==> c4.ret[l] == c.ret[l])
  {
    var c1, c3 := TrueSide(s, c), FalseSide(s, c, c2);
    assert OneRole(c, l) && OneRole(c2, l) && OneRole(c4, l) && l in FullMask(c);
    if s.test(c.vars[l]) {
      assert Active(c1, l) && Did(c1, c2, l, RunLane(s.thn, c.uniforms, c.vars[l], k));
      assert Idle(c3, c4, l);
    } else {
      assert Idle(c1, c2, l) && Active(c3, l);
      assert Did(c3, c4, l, RunLane(s.els, c.uniforms, c.vars[l], k));
    }
  }

  /** Where the masks have a lane of the if once both sides have run. */
  lemma {:induction false} OneSideAccounted(s: Stmt, p: Place, c: Ctx, c2: Ctx, c4: Ctx, l: Lane, k: nat)
    requires s.VaryingIf? && Ready(s, p, c) && c2.control == Here && c4.control != Stuck
    requires Simulates(s.els, p.(jumps := false), FalseSide(s, c, c2), c4, k)
    requires SameFrame(TrueSide(s, c), c2) && Active(c, l)
    ensures c4.control == Here || c4.control == Exited || Finished(c4, l)
  {
    assert l in FullMask(c);
  }

  /** Where breaks must jump, the lanes that neither side finished have not broken. */
  lemma {:induction false} DepthZeroBreaks(s: Stmt, p: Place, c: Ctx, c2: Ctx, c4: Ctx, l: Lane)
    requires s.VaryingIf? && Ready(s, p, c) && VaryingDepth(c.stack) == 0
    requires SameFrame(TrueSide(s, c), c2) && JumpsSound(p.(jumps := false), TrueSide(s, c), c2)
    requires SameFrame(FalseSide(s, c, c2), c4) && JumpsSound(p.(jumps := false), FalseSide(s, c, c2), c4)
    requires Active(c, l)
    ensures l !in Lanes(c4.breakLanes) && l !in Lanes(c4.continueLanes)
  {
    assert OneRole(c, l);
  }

  /** EndIf turns back on exactly the lanes of the saved mask that are not finished. */
  lemma EndIfRestores(c: Ctx, c4: Ctx)
    requires c4.stack != [] && c.stack == Rest(c4.stack)
    requires Top(c4.stack).kind == IfFrame && !Top(c4.stack).isUniform && Top(c4.stack).savedMask == c.internal
    requires c.internal <= AllOn(c4)
    ensures
      var c5 := EndIf(c4);
      c5 == c4.(stack := c.stack, internal := c5.internal)
      && (c4.control != Here ==> c5.internal == c4.internal)
      && (c4.control == Here ==> forall l: Lane :: l in c5.internal <==> l in c.internal && !Finished(c4, l))
  {
  }

  lemma {:induction false} BothSides(s: Stmt, p: Place, c: Ctx, c2: Ctx, c4: Ctx, k: nat)
    requires s.VaryingIf? && Ready(s, p, c) && c2.control == Here
    requires Simulates(s.thn, p.(jumps := false), TrueSide(s, c), c2, k)
    requires Simulates(s.els, p.(jumps := false), FalseSide(s, c, c2), c4, k)
    ensures Simulates(s, p, c, EndIf(c4), k)
  {
    PushedFrame(c, IfFrame, false, c.internal);
    EndIfRestores(c, c4);
    var c5 := EndIf(c4);
    assert SameFrame(c, c5) && JumpsSound(p, c, c5);
    assert Untouched(c, c5);
    forall l: Lane | Active(c, l)
      ensures c5.control != Stuck ==> Accounted(c5, l)
      ensures c5.control != Stuck && l !in c5.lost ==> Did(c, c5, l, RunLane(s, c.uniforms, c.vars[l], k))
    {
      if c5.control != Stuck {
        OneSideAccounted(s, p, c, c2, c4, l, k);
      }
      if c5.control != Stuck && l !in c5.lost {
        OneSideDid(s, p, c, c2, c4, l, k);
      }
    }
    BothSidesInv(s, p, c, c2, c4, k);
    if c5.control == Stuck {
      var c3 := FalseSide(s, c, c2);
      var l: Lane :| Active(c3, l)
        && (l in c4.lost || RunLane(s.els, c3.uniforms, c3.vars[l], k).outcome == Unfinished);
      assert Active(c, l) && Idle(TrueSide(s, c), c2, l);
    }
  }

  lemma {:induction false} BothSidesInv(s: Stmt, p: Place, c: Ctx, c2: Ctx, c4: Ctx, k: nat)
    requires s.VaryingIf? && Ready(s, p, c) && c2.control == Here
    requires Simulates(s.thn, p.(jumps := false), TrueSide(s, c), c2, k)
    requires Simulates(s.els, p.(jumps := false), FalseSide(s, c, c2), c4, k)
    ensures Inv(EndIf(c4))
  {
    PushedFrame(c, IfFrame, false, c.internal);
    EndIfRestores(c, c4);
    var c5 := EndIf(c4);
    forall l: Lane | l in c.functionMask
      ensures OneRole(c5, l)
      ensures c5.control == Here && VaryingDepth(c.stack) == 0 ==> l in c5.internal + c5.returned
    {
      assert OneRole(c4, l) && OneRole(c, l);
      if VaryingDepth(c.stack) == 0 && l in c.internal {
        DepthZeroBreaks(s, p, c, c2, c4, l);
      }
    }
  }

  /** The true side has jumped or returned for good: then no lane took the false side. */
  lemma {:induction false} LeavesFromTrueSide(s: Stmt, p: Place, c: Ctx, c2: Ctx, k: nat)
    requires s.VaryingIf? && Ready(s, p, c) && c2.control != Here
    requires Simulates(s.thn, p.(jumps := false), TrueSide(s, c), c2, k)
    ensures Simulates(s, p, c, c2.(stack := c.stack), k)
  {
    PushedFrame(c, IfFrame, false, c.internal);
    var c1 := TrueSide(s, c);
    var c3 := c2.(stack := c.stack);
    forall l: Lane | Active(c, l)
      ensures c3.control != Stuck ==> Accounted(c3, l)
      ensures c3.control != Stuck && l !in c3.lost ==> Did(c, c3, l, RunLane(s, c.uniforms, c.vars[l], k))
    {
      assert OneRole(c, l) && OneRole(c2, l);
      assert l in FullMask(c);
      if !s.test(c.vars[l]) {
        assert Idle(c1, c2, l);
      } else {
        assert Active(c1, l);
      }
    }
  }
}
