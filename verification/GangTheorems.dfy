/** The main results about masked execution, for whole functions. */
module GangTheorems {
  import opened Lang
  import opened MaskContext
  import opened MaskedRun
  import opened StackDiscipline
  import opened LaneInvariant
  import opened LoopSimulation
  import opened LaneSimulation

  /** A function call: a gang with its function mask, variables and return slots. */
  datatype Call = Call(body: Stmt, functionMask: Mask, vars: seq<Store>, ret: seq<int>, u: Uniforms)

  ghost predicate ValidCall(f: Call)
  {
    WellFormed(f.body, FunctionBody) && f.functionMask <= Gang(|f.vars|) && |f.ret| == |f.vars|
  }

  ghost function GangRun(f: Call, k: nat): Ctx
  {
    RunFunction(f.body, f.functionMask, f.vars, f.ret, f.u, k)
  }

  ghost function LaneRun(f: Call, l: Lane, k: nat): LaneState
    requires l < |f.vars|
  {
    RunLane(f.body, f.u, f.vars[l], k)
  }

  /** The gang has done for lane l what l's own run does: same variables, and the
      return slot holds l's returned value, or is untouched if l returned nothing. */
  ghost predicate AgreesWithLane(f: Call, c: Ctx, l: Lane, r: LaneState)
    requires |c.vars| == |f.vars| == |c.ret| == |f.ret| && l < |f.vars|
  {
    && c.vars[l] == r.store
    && (r.outcome == Normal || r.outcome.Returned?)
    && c.ret[l] == (if r.outcome.Returned? then r.outcome.result else f.ret[l])
  }

  lemma {:induction false} CallSimulates(f: Call, k: nat)
    requires ValidCall(f)
    ensures
      var c := Entry(f.functionMask, f.vars, f.ret, f.u);
      Ready(f.body, FunctionBody, c) && Simulates(f.body, FunctionBody, c, GangRun(f, k), k)
  {
    Simulate(f.body, FunctionBody, Entry(f.functionMask, f.vars, f.ret, f.u), k);
  }

  /** Lane simulation.  The gang's run gets stuck on the iteration bound only if the
      own run of some lane does, or a lane was left behind; otherwise every lane of the
      function mask that was not left behind ends as in its own run.  The variables of
      the other lanes are unchanged. */
  lemma {:induction false} GangEqualsLanes(f: Call, k: nat)
    requires ValidCall(f)
    ensures var c := GangRun(f, k);
      && |c.vars| == |f.vars| == |c.ret| == |f.ret|
      && (c.control == Stuck ==>
            exists l: Lane :: l in f.functionMask && (l in c.lost || LaneRun(f, l, k).outcome == Unfinished))
      && (c.control != Stuck ==>
            forall l: Lane :: l in f.functionMask && l !in c.lost ==> AgreesWithLane(f, c, l, LaneRun(f, l, k)))
      && (forall l: Lane :: l < |f.vars| && l !in f.functionMask ==> c.vars[l] == f.vars[l])
  {
    CallSimulates(f, k);
    var c0, c := Entry(f.functionMask, f.vars, f.ret, f.u), GangRun(f, k);
    assert c.control.At? ==> false;
    forall l: Lane | l in f.functionMask
      ensures Active(c0, l)
      ensures c.control != Stuck && l !in c.lost ==> AgreesWithLane(f, c, l, LaneRun(f, l, k))
    {
      if c.control != Stuck && l !in c.lost {
        assert Did(c0, c, l, LaneRun(f, l, k));
      }
    }
  }

  /** With nobody left behind the gang's run gets stuck exactly if some lane's does. */
  lemma {:induction false} StuckIffSomeLaneIs(f: Call, k: nat)
    requires ValidCall(f) && forall l: Lane :: l in f.functionMask ==> l !in GangRun(f, k).lost
    ensures GangRun(f, k).control == Stuck <==>
        exists l: Lane :: l in f.functionMask && LaneRun(f, l, k).outcome == Unfinished
  {
    GangEqualsLanes(f, k);
    var c := GangRun(f, k);
    if c.control != Stuck {
      forall l: Lane | l in f.functionMask
        ensures LaneRun(f, l, k).outcome != Unfinished
      {
        assert AgreesWithLane(f, c, l, LaneRun(f, l, k));
      }
    }
  }

  // ---------- termination ----------

  /** A larger bound changes nothing for a lane whose run has ended. */
  lemma {:induction false} LaneEndsOnce(s: Stmt, u: Uniforms, st: Store, k: nat, k1: nat)
    requires k <= k1 && RunLane(s, u, st, k).outcome != Unfinished
    ensures RunLane(s, u, st, k1) == RunLane(s, u, st, k)
    decreases s, 1, 0
  {
    match s
    case Seq(first, second) =>
      LaneEndsOnce(first, u, st, k, k1);
      if RunLane(first, u, st, k).outcome.Normal? {
        LaneEndsOnce(second, u, RunLane(first, u, st, k).store, k, k1);
      }
    case UniformIf(utest, thn, els) => LaneEndsOnce(if utest(u) then thn else els, u, st, k, k1);
    case VaryingIf(test, thn, els, _) => LaneEndsOnce(if test(st) then thn else els, u, st, k, k1);
    case Loop(_, _, _, _) => LaneLoopEndsOnce(s, u, st, k, k, k1, k1);
    case VaryingSwitch(expr, cases) => LaneCasesEndOnce(s, u, st, Target(cases, expr(st)), k, k1);
    case UniformSwitch(selector, _, cases) => LaneCasesEndOnce(s, u, st, Target(cases, selector(u)), k, k1);
    case _ =>
  }

  lemma {:induction false} LaneLoopEndsOnce(s: Stmt, u: Uniforms, st: Store, n: nat, k: nat, n1: nat, k1: nat)
    requires s.Loop? && n <= n1 && k <= k1 && RunLaneLoop(s, u, st, n, k).outcome != Unfinished
    ensures RunLaneLoop(s, u, st, n1, k1) == RunLaneLoop(s, u, st, n, k)
    decreases s, 0, n
  {
    if s.test(st) && n > 0 {
      LaneEndsOnce(s.body, u, st, k, k1);
      var r := RunLane(s.body, u, st, k);
      if r.outcome.Normal? || r.outcome.Continued? {
        LaneLoopEndsOnce(s, u, r.store[s.stepVar := s.stepRhs(r.store)], n - 1, k, n1 - 1, k1);
      }
    }
  }

  lemma {:induction false} LaneCasesEndOnce(s: Stmt, u: Uniforms, st: Store, i: nat, k: nat, k1: nat)
    requires (s.VaryingSwitch? || s.UniformSwitch?) && i <= |s.cases| && k <= k1
    requires RunLaneCases(s, u, st, i, k).outcome != Unfinished
    ensures RunLaneCases(s, u, st, i, k1) == RunLaneCases(s, u, st, i, k)
    decreases s, 0, |s.cases| - i
  {
    if i < |s.cases| {
      LaneEndsOnce(s.cases[i].body, u, st, k, k1);
      var r := RunLane(s.cases[i].body, u, st, k);
      if r.outcome.Normal? {
        LaneCasesEndOnce(s, u, r.store, i + 1, k, k1);
      }
    }
  }

  ghost predicate GangEnds(f: Call)
  {
    exists k: nat :: GangRun(f, k).control != Stuck
  }

  ghost predicate LaneEnds(f: Call, l: Lane)
    requires l < |f.vars|
  {
    exists k: nat :: LaneRun(f, l, k).outcome != Unfinished
  }

  /** A bound that is enough for every lane in a set, if each has one. */
  lemma {:induction false} CommonBound(f: Call, lanes: Mask) returns (k: nat)
    requires forall l: Lane :: l in lanes ==> l < |f.vars| && LaneEnds(f, l)
    ensures forall l: Lane :: l in lanes ==> LaneRun(f, l, k).outcome != Unfinished
    decreases lanes
  {
    if lanes == {} {
      k := 0;
    } else {
      var m :| m in lanes;
      var rest := CommonBound(f, lanes - {m});
      var own: nat :| LaneRun(f, m, own).outcome != Unfinished;
      k := if own < rest then rest else own;
      forall l: Lane | l in lanes
        ensures LaneRun(f, l, k).outcome != Unfinished
      {
        if l == m {
          LaneEndsOnce(f.body, f.u, f.vars[l], own, k);
        } else {
          assert l in lanes - {m} && LaneRun(f, l, rest).outcome != Unfinished;
          LaneEndsOnce(f.body, f.u, f.vars[l], rest, k);
        }
      }
    }
  }

  /** Some bound at which a lane of the function mask is left behind. */
  ghost predicate EverLost(f: Call)
  {
    exists k: nat, l: Lane :: l in f.functionMask && l in GangRun(f, k).lost
  }

  /** Termination both ways.  A gang's run that ends gives every lane that it did not
      leave behind the end of its own run; and if the own run of every lane in the
      function mask ends, so does the gang's, unless it leaves a lane behind. */
  lemma {:induction false} GangEndsIffLanesEnd(f: Call)
    requires ValidCall(f)
    ensures forall k: nat, l: Lane :: GangRun(f, k).control != Stuck && l in f.functionMask ==>
        l in GangRun(f, k).lost || LaneEnds(f, l)
    ensures (forall l: Lane :: l in f.functionMask ==> LaneEnds(f, l)) ==> GangEnds(f) || EverLost(f)
    ensures !EverLost(f) ==> (GangEnds(f) <==> forall l: Lane :: l in f.functionMask ==> LaneEnds(f, l))
  {
    forall k: nat, l: Lane | GangRun(f, k).control != Stuck && l in f.functionMask && l !in GangRun(f, k).lost
      ensures LaneEnds(f, l)
    {
      GangEqualsLanes(f, k);
      assert LaneRun(f, l, k).outcome != Unfinished;
    }
    if forall l: Lane :: l in f.functionMask ==> LaneEnds(f, l) {
      var k := CommonBound(f, f.functionMask);
      GangEqualsLanes(f, k);
    }
  }

  // ---------- iteration counts ----------

  ghost predicate LaneWithin(s: Stmt, c: Ctx, l: Lane, n: nat, k: nat)
    requires s.Loop?
  {
    l < |c.vars| && RunLaneLoop(s, c.uniforms, c.vars[l], n, k).outcome != Unfinished
  }

  ghost predicate GangWithin(s: Stmt, c: Ctx, n: nat, k: nat)
    requires s.Loop?
  {
    RunLoop(s, c, n, k).control != Stuck
  }

  /** n is the number of iterations that lane l's own loop needs. */
  ghost predicate LaneNeeds(s: Stmt, c: Ctx, l: Lane, n: nat, k: nat)
    requires s.Loop?
  {
    LaneWithin(s, c, l, n, k) && (n > 0 ==> !LaneWithin(s, c, l, n - 1, k))
  }

  ghost predicate GangNeeds(s: Stmt, c: Ctx, n: nat, k: nat)
    requires s.Loop?
  {
    GangWithin(s, c, n, k) && (n > 0 ==> !GangWithin(s, c, n - 1, k))
  }

  /** Within the bound n the gang's loop leaves none of its active lanes behind. */
  ghost predicate KeepsAll(s: Stmt, c: Ctx, n: nat, k: nat)
    requires s.Loop?
  {
    forall l: Lane :: Active(c, l) ==> l !in RunLoop(s, c, n, k).lost
  }

  /** For every bound: the gang's loop ends within it only if each active lane's does
      that it does not leave behind, and if each active lane's does, unless it leaves
      one behind. */
  lemma {:induction false} LoopEndsIffLanesDo(s: Stmt, c: Ctx, n: nat, k: nat)
    requires s.Loop? && AtHead(c) && WellFormed(s.body, LoopBody)
    ensures GangWithin(s, c, n, k) ==> forall l: Lane :: Active(c, l) ==>
        l in RunLoop(s, c, n, k).lost || LaneWithin(s, c, l, n, k)
    ensures (forall l: Lane :: Active(c, l) ==> LaneWithin(s, c, l, n, k)) ==>
        GangWithin(s, c, n, k) || !KeepsAll(s, c, n, k)
    ensures KeepsAll(s, c, n, k) ==>
        (GangWithin(s, c, n, k) <==> forall l: Lane :: Active(c, l) ==> LaneWithin(s, c, l, n, k))
  {
    BodySound(s.body, LoopBody, k);
    LoopRuns(s, c, n, k);
  }

  lemma {:induction false} LaneStaysWithin(s: Stmt, c: Ctx, l: Lane, n: nat, n1: nat, k: nat)
    requires s.Loop? && n <= n1 && LaneWithin(s, c, l, n, k)
    ensures LaneWithin(s, c, l, n1, k)
  {
    LaneLoopEndsOnce(s, c.uniforms, c.vars[l], n, k, n1, k);
  }

  /** A varying loop runs for the maximum over its active lanes of the iterations
      that each lane needs on its own. */
  lemma {:induction false} IterationsAreTheMaximum(s: Stmt, c: Ctx, need: map<Lane, nat>, n: nat, k: nat)
    requires s.Loop? && AtHead(c) && WellFormed(s.body, LoopBody)
    requires KeepsAll(s, c, n, k) && (n > 0 ==> KeepsAll(s, c, n - 1, k))
    requires forall l: Lane :: l in need.Keys <==> Active(c, l)
    requires forall l: Lane :: l in need ==> LaneNeeds(s, c, l, need[l], k) && need[l] <= n
    requires n > 0 ==> exists l: Lane :: l in need && need[l] == n
    ensures GangNeeds(s, c, n, k)
  {
    GangWithinMaximum(s, c, need, n, k);
    if n > 0 {
      LoopEndsIffLanesDo(s, c, n - 1, k);
      var l: Lane :| l in need && need[l] == n;
      assert Active(c, l) && LaneNeeds(s, c, l, need[l], k);
    }
  }

  lemma {:induction false} GangWithinMaximum(s: Stmt, c: Ctx, need: map<Lane, nat>, n: nat, k: nat)
    requires s.Loop? && AtHead(c) && WellFormed(s.body, LoopBody) && KeepsAll(s, c, n, k)
    requires forall l: Lane :: l in need.Keys <==> Active(c, l)
    requires forall l: Lane :: l in need ==> LaneNeeds(s, c, l, need[l], k) && need[l] <= n
    ensures GangWithin(s, c, n, k)
  {
    forall l: Lane | Active(c, l)
      ensures LaneWithin(s, c, l, n, k)
    {
      assert l in need;
      LaneStaysWithin(s, c, l, need[l], n, k);
    }
    LoopEndsIffLanesDo(s, c, n, k);
  }
}
