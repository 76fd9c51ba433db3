/** The jumps that skip mask code: when they agree with the mask code, exactly when
    one of them does not, and a form of every program that never takes one. */
module Shortcuts {
  import opened Lang
  import opened MaskContext
  import opened MaskedRun
  import opened StackDiscipline
  import opened LaneInvariant
  import opened LoopSimulation
  import opened SwitchLabels
  import opened SwitchSimulation
  import opened LaneSimulation
  import opened GangTheorems
  import opened NoLoss

  // ---------- what single operations guarantee ----------

  /** With no varying control flow around, the live lanes are the function mask
      minus the lanes that have returned. */
  lemma LiveAtDepthZero(c: Ctx)
    requires Inv(c) && c.control == Here && VaryingDepth(c.stack) == 0
    ensures FullMask(c) == c.functionMask - c.returned
  {
    assert forall l: Lane :: l in c.functionMask ==> OneRole(c, l);
  }

  /** A coherent return leaves the function exactly when every lane of the function
      mask has returned, now or before. */
  lemma CoherentReturnExits(c: Ctx, value: Store -> int)
    requires Inv(c) && c.control == Here && VaryingDepth(c.stack) > 0
    ensures DoReturn(c, value, true).control == Exited <==> c.functionMask <= c.returned + c.internal
  {
    assert c.functionMask == c.returned + FullMask(c) <==> c.functionMask <= c.returned + c.internal;
  }

  /** A jump to a break or continue target skips nothing that any lane still wants:
      no lane active at the start of s runs to the end of s, unless it was left behind
      before the jump, and inside varying control flow every lane of the block-entry
      mask is finished, so that no skipped EndIf or case label would turn one back on. */
  lemma {:induction false} EarlyJumpIsSound(s: Stmt, p: Place, c: Ctx, k: nat)
    requires Ready(s, p, c) && Run(s, c, k).control.At?
    ensures forall l: Lane :: Active(c, l) && l !in Run(s, c, k).lost ==>
        l < |c.vars| && !RunLane(s, c.uniforms, c.vars[l], k).outcome.Normal?
    ensures !p.jumps ==>
        forall l: Lane :: l in c.functionMask && l in Lanes(c.entryMask) ==> Finished(Run(s, c, k), l)
  {
    Simulate(s, p, c, k);
    var c1 := Run(s, c, k);
    assert forall l: Lane :: Active(c, l) && l !in c1.lost ==>
        Did(c, c1, l, RunLane(s, c.uniforms, c.vars[l], k));
  }

  // ---------- the direct jumps against the lane masks ----------

  /** continue and break under a varying if that takes its true side in every lane, so
      that they go through the lane masks. */
  function MaskedContinue(c: Ctx): Ctx
  {
    EndIf(DoContinue(StartVaryingIf(c, c.internal), false))
  }

  function MaskedBreak(c: Ctx): Ctx
  {
    EndIf(DoBreak(StartVaryingIf(c, c.internal), false))
  }

  lemma ThroughLanes(c: Ctx)
    requires c.control == Here && c.breakTarget.Some? && c.continueTarget.Some?
    requires c.breakLanes.Some? && c.continueLanes.Some?
    ensures MaskedBreak(c) == c.(breakLanes := Some(c.internal + Lanes(c.breakLanes)), internal := {})
    ensures MaskedContinue(c) == c.(continueLanes := Some(c.internal + Lanes(c.continueLanes)), internal := {})
  {
    PushedFrame(c, IfFrame, false, c.internal);
  }

  /** The direct jump of continue always reaches the next iteration in the same state
      as the lane masks do. */
  lemma ContinueJumpAgrees(s: Stmt, c: Ctx, coherent: bool)
    requires s.Loop? && c.control == Here && AllUniformUpTo(c.stack, LoopFrame)
    requires c.breakTarget.Some? && c.continueTarget.Some? && c.breakLanes.Some? && c.continueLanes.Some?
    ensures Stays(DoContinue(c, coherent)) && Stays(MaskedContinue(c))
    ensures NextHead(s, DoContinue(c, coherent)) == NextHead(s, MaskedContinue(c))
  {
    ThroughLanes(c);
    assert {} + (c.internal + Lanes(c.continueLanes)) == c.internal + Lanes(c.continueLanes);
  }

  /** The direct jump of break leaves the loop in the same state as the lane masks do,
      if nobody is parked in continueLanes. */
  lemma BreakJumpAgrees(s: Stmt, c: Ctx, coherent: bool, n: nat, k: nat)
    requires s.Loop? && c.control == Here && NoneParked(c)
    requires c.breakTarget.Some? && c.continueTarget.Some? && c.breakLanes.Some? && c.continueLanes.Some?
    requires c.stack != [] && Top(c.stack).kind == LoopFrame && !Top(c.stack).isUniform
    ensures
      var jumped := LeaveLoop(DoBreak(c, coherent));
      var masked := RunLoop(s, NextHead(s, MaskedBreak(c)), n, k);
      EndLoop(ArriveAt(jumped, c.breakTarget.value)) == EndLoop(ArriveAt(masked, c.breakTarget.value))
  {
    ThroughLanes(c);
    var jumped := LeaveLoop(DoBreak(c, coherent));
    assert jumped == c.(control := At(c.breakTarget.value)) by {
      assert c.lost + Lanes(c.continueLanes) * c.functionMask == c.lost;
    }
    var next := NextHead(s, MaskedBreak(c));
    assert next.internal == Lanes(c.continueLanes) && FullMask(next) == {};
    assert next.vars == c.vars;
    assert FullMask(Tested(s, next)) == {};
    assert RunLoop(s, next, n, k) == Tested(s, next);
  }

  // ---------- the break jump ----------

  /** From c the loop starts an iteration, and its body ends in the break jump. */
  ghost predicate BodyBreaks(s: Stmt, c: Ctx, k: nat)
    requires s.Loop?
  {
    var c2 := Run(s.body, BodyStart(s, c), k);
    FullMask(BodyStart(s, c)) != {} && c2.control.At? && !Stays(c2)
  }

  ghost predicate WantsMore(s: Stmt, c: Ctx, l: Lane, k: nat)
    requires s.Loop?
  {
    Active(BodyStart(s, c), l) && l < |c.vars| && RunLane(s.body, c.uniforms, c.vars[l], k).outcome.Continued?
  }

  /** At the break jump the lanes left behind are exactly those whose own body run
      continued: all others left the loop. */
  lemma {:induction false} LeftBehindContinued(s: Stmt, c: Ctx, k: nat, l: Lane)
    requires s.Loop? && AtHead(c) && WellFormed(s.body, LoopBody) && BodyBreaks(s, c, k)
    requires l !in Run(s.body, BodyStart(s, c), k).lost
    ensures
      var c2 := Run(s.body, BodyStart(s, c), k);
      (l in LeaveLoop(c2).lost <==> WantsMore(s, c, l, k))
      && (WantsMore(s, c, l, k) ==>
            |c2.vars| == |c.vars| && c2.vars[l] == RunLane(s.body, c.uniforms, c.vars[l], k).store)
  {
    BodyReady(s, c);
    var c1 := BodyStart(s, c);
    Simulate(s.body, LoopBody, c1, k);
    var c2 := Run(s.body, c1, k);
    if l in c.functionMask {
      assert OneRole(c2, l);
      if Active(c1, l) {
        assert Did(c1, c2, l, RunLane(s.body, c.uniforms, c.vars[l], k));
      } else {
        assert Idle(c1, c2, l);
      }
    }
  }

  /** Every lane has left the loop with the result of its own loop. */
  ghost predicate LoopIsRight(s: Stmt, c: Ctx, n: nat, k: nat)
    requires s.Loop?
  {
    var c1 := RunLoop(s, c, n, k);
    && |c1.vars| == |c.vars| == |c.ret| == |c1.ret| && c1.control != Stuck
    && forall l: Lane :: Active(c, l) && l < |c.vars| ==>
         LeftWith(c, c1, l, RunLaneLoop(s, c.uniforms, c.vars[l], n, k))
  }

  /** The same loop with another step. */
  function WithStep(s: Stmt, x: string, rhs: Store -> int): Stmt
    requires s.Loop?
  {
    s.(stepVar := x, stepRhs := rhs)
  }

  /** Exactly when the break jump is right.  Take a loop whose body, in the state c,
      ends in the break jump.  Every lane leaves the loop with the result of its own
      loop, whatever the step of the loop is, if and only if no lane's own run of the
      body continues. */
  lemma {:induction false} BreakJumpExact(s: Stmt, c: Ctx, n: nat, k: nat)
    requires s.Loop? && AtHead(c) && WellFormed(s.body, LoopBody) && BodyBreaks(s, c, k) && n > 0
    requires Run(s.body, BodyStart(s, c), k).lost == {}
    ensures (forall x: string, rhs: Store -> int :: LoopIsRight(WithStep(s, x, rhs), c, n, k))
        <==> (forall l: Lane :: !WantsMore(s, c, l, k))
  {
    if forall l: Lane :: !WantsMore(s, c, l, k) {
      forall x: string, rhs: Store -> int
        ensures LoopIsRight(WithStep(s, x, rhs), c, n, k)
      {
        RightIfNoneContinues(s, c, WithStep(s, x, rhs), n, k);
      }
    } else {
      var l: Lane :| WantsMore(s, c, l, k);
      WrongForSomeStep(s, c, l, n, k);
    }
  }

  lemma {:induction false} StepIsNotRunYet(s: Stmt, c: Ctx, t: Stmt, n: nat, k: nat)
    requires s.Loop? && t.Loop? && t.test == s.test && t.body == s.body && BodyBreaks(s, c, k)
    requires n > 0
    ensures BodyStart(t, c) == BodyStart(s, c)
    ensures RunLoop(t, c, n, k) == LeaveLoop(Run(s.body, BodyStart(s, c), k))
  {
  }

  lemma {:induction false} RightIfNoneContinues(s: Stmt, c: Ctx, t: Stmt, n: nat, k: nat)
    requires s.Loop? && AtHead(c) && WellFormed(s.body, LoopBody) && BodyBreaks(s, c, k) && n > 0
    requires t.Loop? && t.test == s.test && t.body == s.body
    requires Run(s.body, BodyStart(s, c), k).lost == {} && forall l: Lane :: !WantsMore(s, c, l, k)
    ensures LoopIsRight(t, c, n, k)
  {
    BodySound(s.body, LoopBody, k);
    LoopRuns(t, c, n, k);
    StepIsNotRunYet(s, c, t, n, k);
    forall l: Lane
      ensures l !in RunLoop(t, c, n, k).lost
    {
      LeftBehindContinued(s, c, k, l);
    }
  }

  // ---------- a step that shows a lost iteration ----------

  /** The variables that s may assign. */
  function Assigned(s: Stmt): set<string>
  {
    match s
    case Assign(x, _) => {x}
    case Seq(first, second) => Assigned(first) + Assigned(second)
    case UniformIf(_, thn, els) => Assigned(thn) + Assigned(els)
    case VaryingIf(_, thn, els, _) => Assigned(thn) + Assigned(els)
    case Loop(_, stepVar, _, body) => Assigned(body) + {stepVar}
    case VaryingSwitch(_, cases) => set i, x | 0 <= i < |cases| && x in Assigned(cases[i].body) :: x
    case UniformSwitch(_, _, cases) => set i, x | 0 <= i < |cases| && x in Assigned(cases[i].body) :: x
    case _ => {}
  }

  predicate SameAt(x: string, st: Store, st1: Store)
  {
    (x in st <==> x in st1) && (x in st ==> st1[x] == st[x])
  }

  lemma {:induction false} UnassignedStays(s: Stmt, u: Uniforms, st: Store, k: nat, x: string)
    requires x !in Assigned(s)
    ensures SameAt(x, st, RunLane(s, u, st, k).store)
    decreases s, 1, 0
  {
    match s
    case Seq(first, second) =>
      UnassignedStays(first, u, st, k, x);
      UnassignedStays(second, u, RunLane(first, u, st, k).store, k, x);
    case UniformIf(utest, thn, els) => UnassignedStays(if utest(u) then thn else els, u, st, k, x);
    case VaryingIf(test, thn, els, _) => UnassignedStays(if test(st) then thn else els, u, st, k, x);
    case Loop(_, _, _, _) => UnassignedStaysInLoop(s, u, st, k, k, x);
    case VaryingSwitch(expr, cases) => UnassignedStaysInCases(s, u, st, Target(cases, expr(st)), k, x);
    case UniformSwitch(selector, _, cases) => UnassignedStaysInCases(s, u, st, Target(cases, selector(u)), k, x);
    case _ =>
  }

  lemma {:induction false} UnassignedStaysInLoop(s: Stmt, u: Uniforms, st: Store, n: nat, k: nat, x: string)
    requires s.Loop? && x !in Assigned(s)
    ensures SameAt(x, st, RunLaneLoop(s, u, st, n, k).store)
    decreases s, 0, n
  {
    if n > 0 {
      UnassignedStays(s.body, u, st, k, x);
      var r := RunLane(s.body, u, st, k);
      UnassignedStaysInLoop(s, u, r.store[s.stepVar := s.stepRhs(r.store)], n - 1, k, x);
    }
  }

  lemma {:induction false} UnassignedStaysInCases(s: Stmt, u: Uniforms, st: Store, i: nat, k: nat, x: string)
    requires IsSwitch(s) && i <= |s.cases| && x !in Assigned(s)
    ensures SameAt(x, st, RunLaneCases(s, u, st, i, k).store)
    decreases s, 0, |s.cases| - i
  {
    if i < |s.cases| {
      UnassignedStays(s.cases[i].body, u, st, k, x);
      UnassignedStaysInCases(s, u, RunLane(s.cases[i].body, u, st, k).store, i + 1, k, x);
    }
  }

  lemma {:induction false} FreshVar(xs: set<string>) returns (x: string)
    ensures forall y :: y in xs ==> |y| < |x|
    ensures x !in xs
    decreases xs
  {
    if xs == {} {
      x := "x";
    } else {
      var y :| y in xs;
      var rest := FreshVar(xs - {y});
      x := rest + y + "x";
    }
  }

  function CountUp(x: string): Store -> int
  {
    (st: Store) => if x in st then st[x] + 1 else 0
  }

  /** A lane's loop that counts its steps in x never counts back. */
  lemma {:induction false} CountsUp(s: Stmt, u: Uniforms, st: Store, n: nat, k: nat, x: string)
    requires s.Loop? && s.stepVar == x && s.stepRhs == CountUp(x) && x !in Assigned(s.body) && x in st
    ensures var st1 := RunLaneLoop(s, u, st, n, k).store; x in st1 && st1[x] >= st[x]
    decreases n
  {
    if n > 0 {
      UnassignedStays(s.body, u, st, k, x);
      var r := RunLane(s.body, u, st, k);
      CountsUp(s, u, r.store[x := CountUp(x)(r.store)], n - 1, k, x);
    }
  }

  /** If a lane wanted another iteration, a step that counts shows that it got none. */
  lemma {:induction false} WrongForSomeStep(s: Stmt, c: Ctx, l: Lane, n: nat, k: nat)
    requires s.Loop? && AtHead(c) && WellFormed(s.body, LoopBody) && BodyBreaks(s, c, k) && n > 0
    requires Run(s.body, BodyStart(s, c), k).lost == {} && WantsMore(s, c, l, k)
    ensures exists x: string, rhs: Store -> int :: !LoopIsRight(WithStep(s, x, rhs), c, n, k)
  {
    var x := FreshVar(Assigned(s.body));
    var t := WithStep(s, x, CountUp(x));
    StepIsNotRunYet(s, c, t, n, k);
    LeftBehindContinued(s, c, k, l);
    var st := RunLane(s.body, c.uniforms, c.vars[l], k).store;
    var st1 := st[x := CountUp(x)(st)];
    CountsUp(t, c.uniforms, st1, n - 1, k, x);
    assert RunLaneLoop(t, c.uniforms, c.vars[l], n, k) == RunLaneLoop(t, c.uniforms, st1, n - 1, k);
    assert RunLaneLoop(t, c.uniforms, st1, n - 1, k).store != st;
    assert Active(c, l) && RunLoop(t, c, n, k).vars[l] == st;
    assert !LoopIsRight(t, c, n, k);
  }

  /** for (; i < 1; i = 1) { if (v == 1) continue; else v = 0; break; } */
  function LosingBody(): Stmt
  {
    Seq(VaryingIf((st: Store) => "v" in st && st["v"] == 1, Continue(true), Assign("v", (st: Store) => 0), true),
        Break(true))
  }

  function LosingLoop(): Stmt
  {
    Loop((st: Store) => "i" in st && st["i"] < 1, "i", (st: Store) => 1, LosingBody())
  }

  /** Two lanes: the first one continues, the second one breaks. */
  function LosingCall(): Call
  {
    Call(LosingLoop(), {0, 1}, [map["i" := 0, "v" := 1], map["i" := 0, "v" := 0]], [0, 0], map[])
  }

  /** The state in front of the loop test of LosingCall. */
  function LosingHead(): Ctx
  {
    StartLoop(Entry({0, 1}, LosingCall().vars, [0, 0], map[]), BreakBlock(0), ContinueBlock(0), false)
  }

  /** The first lane is parked in continueLanes, the second one goes on to the break. */
  lemma {:induction false} LosingIf()
    ensures
      var c := BodyStart(LosingLoop(), LosingHead());
      FullMask(c) == {0, 1} && c.internal == {0, 1} && c.entryMask == Some({0, 1})
      && Run(LosingBody().first, c, 1) == c.(internal := {1}, continueLanes := Some({0}))
  {
    var s, c := LosingBody().first, BodyStart(LosingLoop(), LosingHead());
    assert TestMask(LosingHead(), LosingLoop().test) == {0, 1} && LosingHead().internal == {0, 1};
    assert c.internal == {0, 1} && FullMask(c) == {0, 1};
    LosingTrueSide(c);
    var c2 := TrueSide(s, c).(internal := {}, continueLanes := Some({0}));
    LosingFalseSide(c, c2);
  }

  lemma {:induction false} LosingTrueSide(c: Ctx)
    requires c == BodyStart(LosingLoop(), LosingHead()) && c.internal == {0, 1} && FullMask(c) == {0, 1}
    ensures
      var s := LosingBody().first;
      RunSide(s.thn, TrueSide(s, c), true, 1) == TrueSide(s, c).(internal := {}, continueLanes := Some({0}))
  {
    var s := LosingBody().first;
    PushedFrame(c, IfFrame, false, c.internal);
    var c1 := TrueSide(s, c);
    assert TestMask(c, s.test) == {0};
    assert c1.internal == {0} && c1.internal + Lanes(c1.continueLanes) == {0};
    var c2 := c1.(internal := {}, continueLanes := Some({0}));
    assert FinishedLanes(c2) == {0};
    assert 1 in Lanes(c2.entryMask);
    assert FullMask(c1) == {0};
  }

  lemma {:induction false} LosingFalseSide(c: Ctx, c2: Ctx)
    requires c == BodyStart(LosingLoop(), LosingHead()) && c.internal == {0, 1} && FullMask(c) == {0, 1}
    requires c2 == TrueSide(LosingBody().first, c).(internal := {}, continueLanes := Some({0}))
    ensures
      var s := LosingBody().first;
      EndIf(RunSide(s.els, FalseSide(s, c, c2), true, 1)) == c.(internal := {1}, continueLanes := Some({0}))
  {
    var s := LosingBody().first;
    PushedFrame(c, IfFrame, false, c.internal);
    var c3 := FalseSide(s, c, c2);
    assert TestMask(c, s.test) == {0};
    assert c3.internal == {1} && FullMask(c3) == {1};
    var c4 := StoreVar(c3, "v", s.els.rhs);
    assert c4.vars == c.vars by {
      assert c4.vars[0] == c.vars[0] && c4.vars[1] == c.vars[1];
    }
    assert EndIf(c4).internal == {1};
  }

  /** The break jump after a parked continue is wrong: on its own the first lane steps
      i to 1, but in the gang its i stays 0, because the second lane's break takes it
      out of the loop.  All coherence checks are on. */
  lemma {:induction false} BreakJumpLosesLanes()
    ensures ValidCall(LosingCall())
    ensures LaneRun(LosingCall(), 0, 1) == LaneState(map["i" := 1, "v" := 1], Normal)
    ensures
      var c := GangRun(LosingCall(), 1);
      c.control == Here && c.vars == LosingCall().vars && c.lost == {0}
  {
    hide RunLoop, RunLane, EndLoop;
    LosingLane();
    LosingRun();
    var c := RunLoop(LosingLoop(), LosingHead(), 1, 1);
    EndLoopKeeps(ArriveAt(c, BreakBlock(0)));
    assert GangRun(LosingCall(), 1) == EndLoop(ArriveAt(c, BreakBlock(0)));
  }

  lemma {:induction false} LosingRun()
    ensures
      var c := RunLoop(LosingLoop(), LosingHead(), 1, 1);
      c.control == At(BreakBlock(0)) && c.vars == LosingCall().vars && c.lost == {0}
  {
    hide Run, RunLane, LosingBody;
    LosingBreak();
    var c, c2 := LosingHead(), Run(LosingBody(), BodyStart(LosingLoop(), LosingHead()), 1);
    assert FullMask(Tested(LosingLoop(), c)) == FullMask(BodyStart(LosingLoop(), c));
    assert {0} * {0, 1} == {0};
    assert RunLoop(LosingLoop(), c, 1, 1) == LeaveLoop(c2);
  }

  lemma EndLoopKeeps(c: Ctx)
    ensures EndLoop(c).control == c.control && EndLoop(c).vars == c.vars && EndLoop(c).lost == c.lost
  {
  }

  lemma {:induction false} LosingBreak()
    ensures
      var c := BodyStart(LosingLoop(), LosingHead());
      FullMask(c) == {0, 1} && Run(LosingBody(), c, 1)
        == c.(internal := {1}, continueLanes := Some({0}), control := At(BreakBlock(0)))
  {
    hide RunLane, RunLoop, TrueSide, FalseSide, TestMask;
    LosingIf();
    var c := BodyStart(LosingLoop(), LosingHead());
    var c1 := c.(internal := {1}, continueLanes := Some({0}));
    assert Top(c1.stack).kind == LoopFrame && !InSwitch(c1.stack);
  }

  lemma {:induction false} LosingLane()
    ensures LaneRun(LosingCall(), 0, 1) == LaneState(map["i" := 1, "v" := 1], Normal)
  {
    var s, u, st := LosingLoop(), map[], map["i" := 0, "v" := 1];
    assert RunLane(LosingBody(), u, st, 1) == LaneState(st, Continued);
    assert RunLaneLoop(s, u, map["i" := 1, "v" := 1], 0, 1) == LaneState(map["i" := 1, "v" := 1], Normal);
    assert st["i" := 1] == map["i" := 1, "v" := 1];
  }

  // ---------- programs without shortcuts ----------

  /** The same program with every hint off: no coherence check, no branching around
      an empty mask, and every break and continue under a varying test, so that it
      goes through the lane masks instead of jumping. */
  function Plain(s: Stmt): Stmt
    decreases s, 1
  {
    match s
    case Seq(first, second) => Seq(Plain(first), Plain(second))
    case UniformIf(utest, thn, els) => UniformIf(utest, Plain(thn), Plain(els))
    case VaryingIf(test, thn, els, _) => VaryingIf(test, Plain(thn), Plain(els), false)
    case Loop(test, stepVar, stepRhs, body) => Loop(test, stepVar, stepRhs, Plain(body))
    case Break(_) => VaryingIf((st: Store) => true, Break(false), Break(false), false)
    case Continue(_) => VaryingIf((st: Store) => true, Continue(false), Continue(false), false)
    case Return(value, _) => Return(value, false)
    case VaryingSwitch(expr, cases) => VaryingSwitch(expr, PlainCases(s))
    case UniformSwitch(selector, _, cases) => UniformSwitch(selector, false, PlainCases(s))
    case Assign(_, _) => s
  }

  function PlainCases(s: Stmt): seq<Case>
    requires IsSwitch(s)
    decreases s, 0
  {
    seq(|s.cases|, i requires 0 <= i < |s.cases| =>
      Case(s.cases[i].caseLabel, false, Plain(s.cases[i].body)))
  }

  lemma {:induction false} PlainWellFormed(s: Stmt, p: Place)
    requires WellFormed(s, p)
    ensures WellFormed(Plain(s), p.(onlyJumps := false))
  {
    match s
    case Seq(first, second) =>
      PlainWellFormed(first, p);
      PlainWellFormed(second, p);
    case UniformIf(_, thn, els) =>
      PlainWellFormed(thn, p);
      PlainWellFormed(els, p);
    case VaryingIf(_, thn, els, _) =>
      PlainWellFormed(thn, p.(jumps := false));
      PlainWellFormed(els, p.(jumps := false));
    case Loop(_, _, _, body) => PlainWellFormed(body, Place(true, true, true, false));
    case VaryingSwitch(_, cases) =>
      forall i | 0 <= i < |cases| { PlainWellFormed(cases[i].body, Place(true, false, false, false)); }
    case UniformSwitch(_, uniformFlow, cases) =>
      forall i | 0 <= i < |cases| { PlainWellFormed(cases[i].body, Place(true, false, true, uniformFlow)); }
    case _ =>
  }

  lemma {:induction false} PlainNeverJumps(s: Stmt, p: Place, direct: bool, parked: bool)
    requires WellFormed(s, p)
    ensures JumpsAreSafe(Plain(s), direct, parked)
  {
    match s
    case Seq(first, second) =>
      PlainNeverJumps(first, p, direct, parked);
      PlainNeverJumps(second, p, direct, parked || Parks(Plain(first), direct));
    case UniformIf(_, thn, els) =>
      PlainNeverJumps(thn, p, direct, parked);
      PlainNeverJumps(els, p, direct, parked);
    case VaryingIf(_, thn, els, _) =>
      PlainNeverJumps(thn, p.(jumps := false), false, parked);
      PlainNeverJumps(els, p.(jumps := false), false, parked || Parks(Plain(thn), false));
    case Loop(_, _, _, body) => PlainNeverJumps(body, Place(true, true, true, false), true, false);
    case VaryingSwitch(_, cases) =>
      forall i | 0 <= i < |cases| { PlainNeverJumps(cases[i].body, Place(true, false, false, false), false, true); }
    case UniformSwitch(_, uniformFlow, cases) =>
      forall i | 0 <= i < |cases| {
        PlainNeverJumps(cases[i].body, Place(true, false, true, uniformFlow), false, true);
      }
    case _ =>
  }

  lemma {:induction false} PlainTarget(s: Stmt, v: int)
    requires IsSwitch(s)
    ensures Target(PlainCases(s), v) == Target(s.cases, v)
  {
    PlainFindLabel(s, Value(v), 0);
    PlainFindLabel(s, Default, 0);
  }

  lemma {:induction false} PlainFindLabel(s: Stmt, l: CaseLabel, from: nat)
    requires IsSwitch(s) && from <= |s.cases|
    ensures FindLabel(PlainCases(s), l, from) == FindLabel(s.cases, l, from)
    decreases |s.cases| - from
  {
    if from < |s.cases| {
      PlainFindLabel(s, l, from + 1);
    }
  }

  /** The hints mean nothing to a lane on its own. */
  lemma {:induction false} PlainLane(s: Stmt, u: Uniforms, st: Store, k: nat)
    ensures RunLane(Plain(s), u, st, k) == RunLane(s, u, st, k)
    decreases s, 1, 0
  {
    match s
    case Seq(first, second) =>
      PlainLane(first, u, st, k);
      PlainLane(second, u, RunLane(first, u, st, k).store, k);
    case UniformIf(utest, thn, els) => PlainLane(if utest(u) then thn else els, u, st, k);
    case VaryingIf(test, thn, els, _) => PlainLane(if test(st) then thn else els, u, st, k);
    case Loop(_, _, _, _) => PlainLaneLoop(s, u, st, k, k);
    case VaryingSwitch(expr, cases) =>
      PlainTarget(s, expr(st));
      PlainLaneCases(s, u, st, Target(cases, expr(st)), k);
    case UniformSwitch(selector, _, cases) =>
      PlainTarget(s, selector(u));
      PlainLaneCases(s, u, st, Target(cases, selector(u)), k);
    case _ =>
  }

  lemma {:induction false} PlainLaneLoop(s: Stmt, u: Uniforms, st: Store, n: nat, k: nat)
    requires s.Loop?
    ensures RunLaneLoop(Plain(s), u, st, n, k) == RunLaneLoop(s, u, st, n, k)
    decreases s, 0, n
  {
    if n > 0 {
      PlainLane(s.body, u, st, k);
      var r := RunLane(s.body, u, st, k);
      PlainLaneLoop(s, u, r.store[s.stepVar := s.stepRhs(r.store)], n - 1, k);
    }
  }

  lemma {:induction false} PlainLaneCases(s: Stmt, u: Uniforms, st: Store, i: nat, k: nat)
    requires IsSwitch(s) && i <= |s.cases|
    ensures |Plain(s).cases| == |s.cases| && RunLaneCases(Plain(s), u, st, i, k) == RunLaneCases(s, u, st, i, k)
    decreases s, 0, |s.cases| - i
  {
    if i < |s.cases| {
      PlainLane(s.cases[i].body, u, st, k);
      PlainLaneCases(s, u, RunLane(s.cases[i].body, u, st, k).store, i + 1, k);
    }
  }

  /** A program whose break jumps are safe never loses a lane. */
  lemma {:induction false} SafeJumpsLoseNothing(f: Call, k: nat)
    requires ValidCall(f) && JumpsAreSafe(f.body, false, false)
    ensures GangRun(f, k).lost == {}
  {
    NothingLost(f.body, Entry(f.functionMask, f.vars, f.ret, f.u), false, false, k);
  }

  /** Termination both ways for a program whose break jumps are safe. */
  lemma {:induction false} SafeCallsEndTogether(f: Call)
    requires ValidCall(f) && JumpsAreSafe(f.body, false, false)
    ensures GangEnds(f) <==> forall l: Lane :: l in f.functionMask ==> LaneEnds(f, l)
  {
    forall k: nat
      ensures GangRun(f, k).lost == {}
    {
      SafeJumpsLoseNothing(f, k);
    }
    GangEndsIffLanesEnd(f);
  }

  /** A varying loop whose break jumps are safe runs for the maximum over its active
      lanes of the iterations that each lane needs on its own. */
  lemma {:induction false} SafeLoopsRunTheMaximum(s: Stmt, c: Ctx, need: map<Lane, nat>, n: nat, k: nat)
    requires s.Loop? && AtHead(c) && WellFormed(s.body, LoopBody) && JumpsAreSafe(s.body, true, false)
    requires forall l: Lane :: l in need.Keys <==> Active(c, l)
    requires forall l: Lane :: l in need ==> l !in c.lost && LaneNeeds(s, c, l, need[l], k) && need[l] <= n
    requires n > 0 ==> exists l: Lane :: l in need && need[l] == n
    ensures GangNeeds(s, c, n, k)
  {
    SafeLoopKeepsAll(s, c, n, k);
    if n > 0 {
      SafeLoopKeepsAll(s, c, n - 1, k);
    }
    IterationsAreTheMaximum(s, c, need, n, k);
  }

  lemma {:induction false} SafeLoopKeepsAll(s: Stmt, c: Ctx, n: nat, k: nat)
    requires s.Loop? && AtHead(c) && JumpsAreSafe(s.body, true, false)
    requires forall l: Lane :: Active(c, l) ==> l !in c.lost
    ensures KeepsAll(s, c, n, k)
  {
    assert LoopStarts(s, c);
    NothingLostInLoop(s, c, n, k);
  }

  /** Without shortcuts every program runs every lane correctly.  The masked run with
      all shortcuts gives the same variables and the same return values for every lane
      that it does not leave behind, and gets stuck for the same bounds if it leaves
      none behind. */
  lemma {:induction false} ShortcutsAgree(f: Call, k: nat)
    requires ValidCall(f)
    ensures
      var g := f.(body := Plain(f.body));
      ValidCall(g) && GangRun(g, k).lost == {}
      && (forall l: Lane :: l in f.functionMask ==> LaneRun(g, l, k) == LaneRun(f, l, k))
      && SameLaneResults(f, g, k)
      && (GangRun(f, k).lost == {} ==> (GangRun(f, k).control == Stuck <==> GangRun(g, k).control == Stuck))
  {
    var g := f.(body := Plain(f.body));
    PlainWellFormed(f.body, FunctionBody);
    PlainNeverJumps(f.body, FunctionBody, false, false);
    SafeJumpsLoseNothing(g, k);
    forall l: Lane | l in f.functionMask
      ensures LaneRun(g, l, k) == LaneRun(f, l, k)
    {
      PlainLane(f.body, f.u, f.vars[l], k);
    }
    SameLanesSameResults(f, g, k);
    StuckIffSomeLaneIs(g, k);
    if GangRun(f, k).lost == {} {
      StuckIffSomeLaneIs(f, k);
    }
  }

  /** If both runs end, they agree on the lanes that the first one does not leave behind,
      and on the variables of the lanes outside the function mask. */
  ghost predicate SameLaneResults(f: Call, g: Call, k: nat)
  {
    var c, d := GangRun(f, k), GangRun(g, k);
    c.control != Stuck && d.control != Stuck ==>
      && |c.vars| == |c.ret| == |d.vars| == |d.ret| == |f.vars|
      && (forall l: Lane :: l < |f.vars| && l in f.functionMask && l !in c.lost ==>
            c.vars[l] == d.vars[l] && c.ret[l] == d.ret[l])
      && (forall l: Lane :: l < |f.vars| && l !in f.functionMask ==> c.vars[l] == d.vars[l])
  }

  lemma {:induction false} SameLanesSameResults(f: Call, g: Call, k: nat)
    requires ValidCall(f) && ValidCall(g) && g == f.(body := g.body) && GangRun(g, k).lost == {}
    requires forall l: Lane :: l in f.functionMask ==> LaneRun(g, l, k) == LaneRun(f, l, k)
    ensures SameLaneResults(f, g, k)
  {
    GangEqualsLanes(f, k);
    GangEqualsLanes(g, k);
    var c, d := GangRun(f, k), GangRun(g, k);
    if c.control != Stuck && d.control != Stuck {
      forall l: Lane | l in f.functionMask && l !in c.lost
        ensures c.vars[l] == d.vars[l] && c.ret[l] == d.ret[l]
      {
        assert AgreesWithLane(f, c, l, LaneRun(f, l, k)) && AgreesWithLane(g, d, l, LaneRun(g, l, k));
      }
    }
  }
}
