/** When a loop ends although no lane is on. */
module AllOffLoops {
  import opened MaskContext
  import opened AllOffSafety
  import opened AllOffRun
  import opened AllOffSoundness

  /** With no lane on, an iteration of the loop leaves no trace: what its body declares is
      gone, and nothing else is written.  (A loop variable that is as deep as its loop is
      stored to without a mask, and a uniform loop can count with it.) */
  predicate Repeats(n: Node, d: nat)
  {
    (n.kind.For? ==> KidsChange(n, 1, d) == {}) && (n.kind.Do? ==> KidsChange(n, 0, d) == {})
  }

  /** The same for a for loop; one with a varying test makes no iteration. */
  predicate ForRepeats(n: Node, d: nat)
    requires n.kind.For? && |n.kids| == 4
  {
    KidChanges(n, 1, d) == {} && (UniformLoop(n.kids[1], n.kids[3]) ==> Repeats(n, d))
  }

  /** Does the body break out of its loop when it runs with no lane on? */
  ghost predicate BreaksOut(n: Node, i: nat, st: St, env: Env, d: nat, k: nat)
    requires i < |n.kids|
  {
    var r := RunScope(n.kids[i], st, env, Body(n, d), k);
    r.Jumped? && r.toBreak
  }

  /** Does the test of a loop with this body let no iteration follow, when it is run in
      st with no lane on?  A varying one never does, a uniform one if it is not zero. */
  ghost predicate TestEnds(test: Node, body: Node, st: St, env: Env, d: nat, k: nat)
  {
    var t := Run(test, st, env, Plain(d), k);
    !UniformLoop(test, body) || (test.kind != Null && t.Done? && InLane(Part(t.value, 0), 0) == 0)
  }

  /** Running the test of the loop changes nothing, not even the mask. */
  ghost predicate TestIsIdle(test: Node, body: Node, st: St, env: Env, d: nat, k: nat)
  {
    var t := Run(test, st, env, Plain(d), k);
    t.Done? && t.st == st && Tested(test, UniformLoop(test, body), t) == st
    && (Stops(test, UniformLoop(test, body), t) <==> TestEnds(test, body, st, env, d, k))
  }

  /** The test and step of a for loop, and the test of a do loop. */
  predicate IsHeader(n: Node, i: nat)
  {
    (n.kind.For? && 1 <= i <= 2) || (n.kind.Do? && i == 1)
  }

  lemma HeaderRepeats(n: Node, i: nat, env: Env, d: nat)
    requires Good(n, env) && Repeats(n, d) && IsHeader(n, i)
    ensures i < |n.kids| && KidChanges(n, i, d) == {}
  {
    hide Good, HasUniformLoop, KidsChange, KidChanges, UniformLoop;
    LoopParts(n, env);
    KidChangesIn(n, if n.kind.For? then 1 else 0, i, d);
    assert KidChanges(n, i, d) <= {};
  }

  lemma HeaderParts(n: Node, i: nat, env: Env, d: nat)
    requires Good(n, env) && IsHeader(n, i)
    ensures |n.kids| == (if n.kind.For? then 4 else 2)
    ensures Good(n.kids[i], env) && !HasUniformLoop(n.kids[i]) && KidDepth(n, i, d) == KidDepth(n, 0, d)
  {
    hide Good, HasUniformLoop, UniformLoop;
    LoopParts(n, env);
  }

  lemma LoopIdle(n: Node, i: nat, st: St, env: Env, d: nat, k: nat)
    requires Good(n, env) && st.mask == {} && IsHeader(n, i) && i < |n.kids| && KidChanges(n, i, d) == {}
    ensures |n.kids| == (if n.kind.For? then 4 else 2)
    ensures var r := Run(n.kids[i], st, env, Plain(KidDepth(n, 0, d)), k); r.Done? && r.st == st
  {
    hide Good, HasUniformLoop, Run, KidChanges, Agree, KidDepth;
    HeaderParts(n, i, env, d);
    HeaderAllOff(n, i, st, env, d, k);
    AgreeNone(st, Run(n.kids[i], st, env, Plain(KidDepth(n, 0, d)), k).st);
  }

  lemma BodyIdle(n: Node, st: St, env: Env, d: nat, k: nat)
    requires Good(n, env) && st.mask == {} && Repeats(n, d) && (n.kind.For? || n.kind.Do?)
    ensures |n.kids| == (if n.kind.For? then 4 else 2)
    ensures
      var r := RunScope(n.kids[if n.kind.For? then 3 else 0], st, env, Body(n, d), k);
      && !r.Fault? && (r.Unfinished? ==> HasUniformLoop(n))
      && (r.Done? ==> r == Done(st, [])) && (r.Jumped? ==> r.st == st)
  {
    LoopParts(n, env);
    hide Good, HasUniformLoop, RunScope, KidsChange, KidChanges, Agree, Body;
    var i := if n.kind.For? then 3 else 0;
    KidChangesIn(n, if n.kind.For? then 1 else 0, i, d);
    assert KidChanges(n, i, d) == {} by {
      assert KidChanges(n, i, d) <= {};
    }
    BodyAllOff(n, i, st, env, d, k);
    var r := RunScope(n.kids[i], st, env, Body(n, d), k);
    if r.Done? || r.Jumped? {
      AgreeNone(st, r.st);
    }
  }

  lemma TestAllOff(n: Node, body: Node, st: St, env: Env, d: nat, k: nat)
    requires Good(n, env) && st.mask == {} && (n.kind.For? || n.kind.Do?)
    requires 1 < |n.kids| && KidChanges(n, 1, d) == {}
    ensures |n.kids| == (if n.kind.For? then 4 else 2)
    ensures TestIsIdle(n.kids[1], body, st, env, KidDepth(n, 0, d), k)
  {
    LoopIdle(n, 1, st, env, d, k);
    hide Good, Run, UniformLoop, KidDepth, KidChanges;
    TestedAllOff(n.kids[1], UniformLoop(n.kids[1], body), Run(n.kids[1], st, env, Plain(KidDepth(n, 0, d)), k));
  }

  /** If nothing changes from one iteration to the next, a for loop ends at its first
      test or in its first iteration, or not at all. */
  lemma {:induction false} ForFromHead(n: Node, st: St, env: Env, d: nat, count: nat, k: nat)
    requires Good(n, env) && n.kind.For? && |n.kids| == 4 && ForRepeats(n, d)
    requires st.mask == {} && st.broke == {} && st.continued == {}
    ensures
      RunFor(n, st, env, d, count, k) ==
        if TestEnds(n.kids[1], n.kids[3], st, env, KidDepth(n, 0, d), k)
           || (count > 0 && BreaksOut(n, 3, st, env, d, k))
        then Done(st, []) else Unfinished
    decreases count
  {
    hide Good, RunScope, Stops, Tested, TestEnds, Run, RunFor, TestIsIdle, KidDepth, HasUniformLoop, Repeats, Body;
    hide KidChanges, UniformLoop;
    TestAllOff(n, n.kids[3], st, env, d, k);
    if !UniformLoop(n.kids[1], n.kids[3]) {
      ForStops(n, st, env, d, count, k);
    } else if count > 0 {
      HeaderRepeats(n, 2, env, d);
      BodyIdle(n, st, env, d, k);
      LoopIdle(n, 2, st, env, d, k);
      ForIteration(n, st, env, d, count, k);
      ForFromHead(n, st, env, d, count - 1, k);
    } else {
      ForWithoutIteration(n, st, env, d, k);
    }
  }

  /** A varying test lets no lane go on. */
  lemma ForStops(n: Node, st: St, env: Env, d: nat, count: nat, k: nat)
    requires n.kind.For? && |n.kids| == 4 && !UniformLoop(n.kids[1], n.kids[3])
    requires TestIsIdle(n.kids[1], n.kids[3], st, env, KidDepth(n, 0, d), k)
    ensures RunFor(n, st, env, d, count, k) == Done(st, [])
    ensures TestEnds(n.kids[1], n.kids[3], st, env, KidDepth(n, 0, d), k)
  {
    hide Run, RunScope, UniformLoop, Tested, Stops, KidDepth;
  }

  lemma ForWithoutIteration(n: Node, st: St, env: Env, d: nat, k: nat)
    requires n.kind.For? && |n.kids| == 4 && TestIsIdle(n.kids[1], n.kids[3], st, env, KidDepth(n, 0, d), k)
    ensures
      RunFor(n, st, env, d, 0, k) ==
        if TestEnds(n.kids[1], n.kids[3], st, env, KidDepth(n, 0, d), k) then Done(st, []) else Unfinished
  {
    hide Run, RunScope, UniformLoop, Tested, Stops, TestEnds, KidDepth;
  }

  /** One iteration in which nothing changes. */
  lemma ForIteration(n: Node, st: St, env: Env, d: nat, count: nat, k: nat)
    requires n.kind.For? && |n.kids| == 4 && count > 0
    requires st.mask == {} && st.broke == {} && st.continued == {}
    requires TestIsIdle(n.kids[1], n.kids[3], st, env, KidDepth(n, 0, d), k)
    requires
      var r := RunScope(n.kids[3], st, env, Body(n, d), k);
      !r.Fault? && (r.Done? || r.Jumped? ==> r.st == st)
    requires var r := Run(n.kids[2], st, env, Plain(KidDepth(n, 0, d)), k); r.Done? && r.st == st
    ensures
      RunFor(n, st, env, d, count, k) ==
        if TestEnds(n.kids[1], n.kids[3], st, env, KidDepth(n, 0, d), k) || BreaksOut(n, 3, st, env, d, k)
        then Done(st, [])
        else if RunScope(n.kids[3], st, env, Body(n, d), k).Unfinished? then Unfinished
        else RunFor(n, st, env, d, count - 1, k)
  {
    hide Run, RunScope, UniformLoop, Tested, Stops, TestEnds, NextIteration, KidDepth, Body;
    LoopStateAllOff(st);
  }

  /** A do loop has run its body once before its test. */
  ghost predicate DoEnds(n: Node, st: St, env: Env, d: nat, k: nat)
    requires n.kind.Do? && |n.kids| == 2
  {
    || BreaksOut(n, 0, st, env, d, k)
    || (!RunScope(n.kids[0], st, env, Body(n, d), k).Unfinished?
        && TestEnds(n.kids[1], n.kids[0], st, env, KidDepth(n, 0, d), k))
  }

  lemma {:induction false} DoFromHead(n: Node, st: St, env: Env, d: nat, count: nat, k: nat)
    requires Good(n, env) && n.kind.Do? && |n.kids| == 2 && Repeats(n, d)
    requires st.mask == {} && st.broke == {} && st.continued == {}
    ensures RunDo(n, st, env, d, count, k) == if DoEnds(n, st, env, d, k) then Done(st, []) else Unfinished
    decreases count
  {
    hide Good, RunScope, Stops, Tested, TestEnds, Run, RunDo, DoEnds, TestIsIdle, KidDepth, HasUniformLoop, Repeats;
    hide Body, KidChanges;
    HeaderRepeats(n, 1, env, d);
    TestAllOff(n, n.kids[0], st, env, d, k);
    BodyIdle(n, st, env, d, k);
    DoIteration(n, st, env, d, count, k);
    if count > 0 {
      DoFromHead(n, st, env, d, count - 1, k);
    }
  }

  lemma DoIteration(n: Node, st: St, env: Env, d: nat, count: nat, k: nat)
    requires n.kind.Do? && |n.kids| == 2
    requires st.mask == {} && st.broke == {} && st.continued == {}
    requires TestIsIdle(n.kids[1], n.kids[0], st, env, KidDepth(n, 0, d), k)
    requires
      var r := RunScope(n.kids[0], st, env, Body(n, d), k);
      !r.Fault? && (r.Done? || r.Jumped? ==> r.st == st)
    ensures
      RunDo(n, st, env, d, count, k) ==
        if DoEnds(n, st, env, d, k) then Done(st, [])
        else if count == 0 || RunScope(n.kids[0], st, env, Body(n, d), k).Unfinished? then Unfinished
        else RunDo(n, st, env, d, count - 1, k)
  {
    hide Run, RunScope, UniformLoop, Tested, Stops, TestEnds, NextIteration, KidDepth, Body;
    LoopStateAllOff(st);
  }

  /** The state in which the test of a for loop is first evaluated. */
  ghost function AtTest(n: Node, st: St, env: Env, d: nat, k: nat): St
    requires n.kind.For? && |n.kids| == 4
  {
    var r := Run(n.kids[0], st, env, Plain(KidDepth(n, 0, d)), k);
    if r.Done? then EnterLoop(r.st) else st
  }

  /** When a for loop ends although no lane is on, if its test changes nothing.  One with a
      varying test always does.  One with uniform control flow, whose iterations leave no
      trace, does if and only if its test is zero after the init, or its first iteration
      breaks; else it runs on for every bound.  Where it ends it has done nothing. */
  lemma {:induction false} ForEndsIff(n: Node, st: St, env: Env, w: Place, k: nat)
    requires Good(n, env) && n.kind.For? && |n.kids| == 4 && st.mask == {}
    requires ForRepeats(n, w.depth) && Changes(n, w.depth) == {}
    ensures
      var st1 := AtTest(n, st, env, w.depth, k);
      Run(n, st, env, w, k) ==
        if TestEnds(n.kids[1], n.kids[3], st1, env, KidDepth(n, 0, w.depth), k)
           || (k > 0 && BreaksOut(n, 3, st1, env, w.depth, k))
        then Done(st, []) else Unfinished
  {
    hide Good, SameOutside, UniformLoop, RunScope, BreaksOut, TestEnds, ForRepeats, Changes, HasUniformLoop, Agree;
    hide RunFor, KidDepth, LeaveScope, Spread, KidChanges;
    RunAllOff(n, st, env, w, k);
    FirstPart(n, env, w.depth);
    HeaderAllOff(n, 0, st, env, w.depth, k);
    var r := Run(n.kids[0], st, env, Plain(KidDepth(n, 0, w.depth)), k);
    ForFromHead(n, EnterLoop(r.st), env, w.depth, k, k);
    if Run(n, st, env, w, k).Done? {
      AgreeNone(st, Run(n, st, env, w, k).st);
    }
  }

  /** A do loop with uniform control flow ends with no lane on if and only if its body
      ends and its test is zero, or its body breaks. */
  lemma {:induction false} DoEndsIff(n: Node, st: St, env: Env, w: Place, k: nat)
    requires Good(n, env) && n.kind.Do? && |n.kids| == 2 && st.mask == {} && Repeats(n, w.depth)
    ensures
      Run(n, st, env, w, k) == if DoEnds(n, EnterLoop(st), env, w.depth, k) then Done(st, []) else Unfinished
  {
    DoFromHead(n, EnterLoop(st), env, w.depth, k, k);
    hide Good, RunDo, DoEnds, Repeats;
    assert {} - st.returned == {};
    assert FinishLoop(st, Done(EnterLoop(st), [])) == Done(st, []);
  }

  // ---------- the bound ----------

  /** The iterations of all its uniform loops leave no trace. */
  predicate Settled(n: Node, d: nat)
  {
    && (n.kind.For? && |n.kids| == 4 && UniformLoop(n.kids[1], n.kids[3]) ==> Repeats(n, d))
    && (n.kind.Do? && |n.kids| == 2 && UniformLoop(n.kids[1], n.kids[0]) ==> Repeats(n, d))
    && forall i: nat :: i < |n.kids| ==> Settled(n.kids[i], KidDepth(n, i, d))
  }

  /** With no lane on the bound on iterations does not matter: whatever ends at all ends
      within one iteration of each of its loops. */
  lemma {:induction false} OneIterationDecides(n: Node, st: St, env: Env, w: Place, k: nat, k1: nat)
    requires Good(n, env) && Settled(n, w.depth) && st.mask == {} && k > 0 && k1 > 0
    ensures Run(n, st, env, w, k) == Run(n, st, env, w, k1)
    decreases n, 2, 0
  {
    GoodParts(n, env);
    hide Good, Settled, Apply, EnvOK;
    if Strict(n.kind) {
      KidsDecided(n, 0, st, env, w, k, k1);
    } else if n.kind.If? {
      IfDecided(n, st, env, w, k, k1);
    } else if n.kind.Select? {
      SelectDecided(n, st, env, w, k, k1);
    } else if n.kind.Logical? {
      LogicalDecided(n, st, env, w, k, k1);
    } else if n.kind.For? {
      ForDecided(n, st, env, w, k, k1);
    } else if n.kind.Do? {
      DoDecided(n, st, env, w, k, k1);
    } else if n.kind.Switch? {
      SwitchDecided(n, st, env, w, k, k1);
    }
  }

  /** The next state is again one with no lane on. */
  lemma StaysOff(n: Node, st: St, env: Env, w: Place, k: nat)
    requires Good(n, env) && st.mask == {}
    ensures
      var r := Run(n, st, env, w, k);
      r.Done? || r.Jumped? ==> r.st == st.(uni := r.st.uni, vars := r.st.vars)
  {
    hide Good, Run, Changes;
    RunAllOff(n, st, env, w, k);
  }

  lemma KidDecided(n: Node, i: nat, env: Env, d: nat)
    requires Good(n, env) && Settled(n, d) && !NullCall(n.kind) && i < |n.kids|
    ensures Good(n.kids[i], env) && Settled(n.kids[i], KidDepth(n, i, d))
  {
    GoodParts(n, env);
  }

  lemma {:induction false} KidsDecided(n: Node, from: nat, st: St, env: Env, w: Place, k: nat, k1: nat)
    requires Good(n, env) && Settled(n, w.depth) && Strict(n.kind)
    requires st.mask == {} && from <= |n.kids| && k > 0 && k1 > 0
    ensures RunKids(n, from, st, env, w, k) == RunKids(n, from, st, env, w, k1)
    decreases n, 1, |n.kids| - from
  {
    hide Good, Run, Settled, Changes, HasUniformLoop;
    if from < |n.kids| {
      StrictKids(n, w.depth);
      KidDecided(n, from, env, w.depth);
      OneIterationDecides(n.kids[from], st, env, w, k, k1);
      StaysOff(n.kids[from], st, env, w, k);
      var r := Run(n.kids[from], st, env, w, k);
      if r.Done? {
        KidsDecided(n, from + 1, r.st, env, w, k, k1);
      }
    }
  }

  lemma {:induction false} ScopeDecided(part: Node, st: St, env: Env, w: Place, k: nat, k1: nat)
    requires Good(part, env) && Settled(part, w.depth) && st.mask == {} && k > 0 && k1 > 0
    ensures RunScope(part, st, env, w, k) == RunScope(part, st, env, w, k1)
    decreases part, 3, 0
  {
    hide Good, Run, Settled;
    OneIterationDecides(part, st, env, w, k, k1);
  }

  lemma {:induction false} IfDecided(n: Node, st: St, env: Env, w: Place, k: nat, k1: nat)
    requires Good(n, env) && Settled(n, w.depth) && st.mask == {} && n.kind.If? && |n.kids| == 3 && k > 0 && k1 > 0
    ensures RunIf(n, st, env, w, k) == RunIf(n, st, env, w, k1)
    decreases n, 1, 1
  {
    hide Good, Run, Settled, RunScope, RunSides, Uniform;
    KidDecided(n, 0, env, w.depth);
    OneIterationDecides(n.kids[0], st, env, Plain(w.depth), k, k1);
    StaysOff(n.kids[0], st, env, Plain(w.depth), k);
    var t := Run(n.kids[0], st, env, Plain(w.depth), k);
    if t.Done? {
      if Uniform(n.kids[0]) {
        var i := if InLane(Part(t.value, 0), 0) != 0 then 1 else 2;
        KidDecided(n, i, env, w.depth);
        ScopeDecided(n.kids[i], t.st, env, w, k, k1);
      } else {
        SidesDecided(n, t.st, TrueLanes(t.st, Part(t.value, 0)), env, w, k, k1);
      }
    }
  }

  lemma {:induction false} SidesDecided(n: Node, st: St, test: Mask, env: Env, w: Place, k: nat, k1: nat)
    requires Good(n, env) && Settled(n, w.depth) && st.mask == {} && n.kind.If? && |n.kids| == 3 && k > 0 && k1 > 0
    requires !Uniform(n.kids[0])
    ensures RunSides(n, st, test, env, w, k) == RunSides(n, st, test, env, w, k1)
    decreases n, 1, 0
  {
    hide Good, Settled, RunScope, Uniform, HasUniformLoop, Changes, Agree;
    var w1 := Place(false, w.depth + 1, w.canContinue);
    assert st.mask * test == {} && st.mask - test == {} && st.(mask := {}) == st;
    KidDecided(n, 1, env, w.depth);
    KidDecided(n, 2, env, w.depth);
    ScopeDecided(n.kids[1], st, env, w1, k, k1);
    SideAllOff(n, 1, st, n.kind.branch, env, w1, k);
    var r := RunSide(n.kids[1], st, n.kind.branch, env, w1, k);
    if r.Done? {
      assert r.st.(mask := {}) == r.st;
      ScopeDecided(n.kids[2], r.st, env, w1, k, k1);
    }
  }

  lemma {:induction false} SelectDecided(n: Node, st: St, env: Env, w: Place, k: nat, k1: nat)
    requires Good(n, env) && Settled(n, w.depth) && st.mask == {} && n.kind.Select? && |n.kids| == 3
    requires k > 0 && k1 > 0
    ensures RunSelect(n, st, env, w, k) == RunSelect(n, st, env, w, k1)
    decreases n, 1, 1
  {
    hide Good, Run, Settled, Uniform, RunOperands, TrueLanes;
    OperandDecided(n, 0, st, env, w, k, k1);
    var t := Run(n.kids[0], st, env, Plain(w.depth), k);
    if t.Done? {
      if Uniform(n.kids[0]) {
        OperandDecided(n, if InLane(Part(t.value, 0), 0) != 0 then 1 else 2, t.st, env, w, k, k1);
      } else {
        OperandsDecided(n, t.st, TrueLanes(t.st, Part(t.value, 0)), env, w, k, k1);
      }
    }
  }

  lemma {:induction false} OperandsDecided(n: Node, st: St, test: Mask, env: Env, w: Place, k: nat, k1: nat)
    requires Good(n, env) && Settled(n, w.depth) && st.mask == {} && n.kind.Select? && |n.kids| == 3
    requires k > 0 && k1 > 0
    ensures RunOperands(n, st, test, env, w.depth, k) == RunOperands(n, st, test, env, w.depth, k1)
    decreases n, 1, 0
  {
    hide Good, Run, Settled, Selected;
    assert {} * test == {} && {} - test == {} && st.(mask := {}) == st;
    OperandDecided(n, 1, st, env, w, k, k1);
    var r := RunOperand(n.kids[1], st, n.kind.shortCircuit1, env, w.depth, k);
    if r.Done? {
      assert r.st.(mask := {}) == r.st;
      OperandDecided(n, 2, r.st, env, w, k, k1);
    }
  }

  lemma {:induction false} OperandDecided(n: Node, i: nat, st: St, env: Env, w: Place, k: nat, k1: nat)
    requires Good(n, env) && Settled(n, w.depth) && st.mask == {} && (n.kind.Select? || n.kind.Logical?)
    requires i < |n.kids| && k > 0 && k1 > 0
    ensures
      var r := Run(n.kids[i], st, env, Plain(w.depth), k);
      r == Run(n.kids[i], st, env, Plain(w.depth), k1) && (r.Done? ==> r.st.mask == {})
    decreases n, 0, 0
  {
    hide Good, Run, Settled;
    KidDecided(n, i, env, w.depth);
    OneIterationDecides(n.kids[i], st, env, Plain(w.depth), k, k1);
    StaysOff(n.kids[i], st, env, Plain(w.depth), k);
  }

  lemma {:induction false} LogicalDecided(n: Node, st: St, env: Env, w: Place, k: nat, k1: nat)
    requires Good(n, env) && Settled(n, w.depth) && st.mask == {} && n.kind.Logical? && |n.kids| == 2
    requires k > 0 && k1 > 0
    ensures RunLogical(n, st, env, w, k) == RunLogical(n, st, env, w, k1)
    decreases n, 1, 1
  {
    hide Good, Run, Settled, Uniform, Decided, TrueLanes;
    OperandDecided(n, 0, st, env, w, k, k1);
    var t := Run(n.kids[0], st, env, Plain(w.depth), k);
    if t.Done? {
      OperandDecided(n, 1, t.st, env, w, k, k1);
      assert Undecided(n.kind.logical, t.st, Part(t.value, 0)) == {};
    }
  }

  lemma {:induction false} ForDecided(n: Node, st: St, env: Env, w: Place, k: nat, k1: nat)
    requires Good(n, env) && Settled(n, w.depth) && st.mask == {} && n.kind.For? && |n.kids| == 4 && k > 0 && k1 > 0
    ensures Run(n, st, env, w, k) == Run(n, st, env, w, k1)
    decreases n, 1, 2
  {
    hide Good, RunFor, Settled, KidDepth, LeaveScope, HasUniformLoop, Changes, KidChanges;
    KidDecided(n, 0, env, w.depth);
    OneIterationDecides(n.kids[0], st, env, Plain(KidDepth(n, 0, w.depth)), k, k1);
    StaysOff(n.kids[0], st, env, Plain(KidDepth(n, 0, w.depth)), k);
    var r := Run(n.kids[0], st, env, Plain(KidDepth(n, 0, w.depth)), k);
    if r.Done? {
      ForHeadDecided(n, EnterLoop(r.st), env, w.depth, k, k1);
    }
  }

  lemma {:induction false} ForHeadDecided(n: Node, st: St, env: Env, d: nat, k: nat, k1: nat)
    requires Good(n, env) && Settled(n, d) && n.kind.For? && |n.kids| == 4 && k > 0 && k1 > 0
    requires st.mask == {} && st.broke == {} && st.continued == {}
    ensures RunFor(n, st, env, d, k, k) == RunFor(n, st, env, d, k1, k1)
    decreases n, 1, 1
  {
    ForDepth(n, d);
    assert UniformLoop(n.kids[1], n.kids[3]) ==> Repeats(n, d);
    hide Good, Settled, Run, RunScope, KidDepth, UniformLoop, Repeats;
    KidDecided(n, 1, env, d);
    KidDecided(n, 3, env, d);
    OneIterationDecides(n.kids[1], st, env, Plain(KidDepth(n, 0, d)), k, k1);
    StaysOff(n.kids[1], st, env, Plain(KidDepth(n, 0, d)), k);
    if UniformLoop(n.kids[1], n.kids[3]) {
      ScopeDecided(n.kids[3], st, env, Body(n, d), k, k1);
      ForFromHead(n, st, env, d, k, k);
      ForFromHead(n, st, env, d, k1, k1);
    } else {
      var t := Run(n.kids[1], st, env, Plain(KidDepth(n, 0, d)), k);
      if t.Done? {
        TestedAllOff(n.kids[1], false, t);
      }
    }
  }

  lemma {:induction false} DoDecided(n: Node, st: St, env: Env, w: Place, k: nat, k1: nat)
    requires Good(n, env) && Settled(n, w.depth) && st.mask == {} && n.kind.Do? && |n.kids| == 2 && k > 0 && k1 > 0
    ensures Run(n, st, env, w, k) == Run(n, st, env, w, k1)
    decreases n, 1, 2
  {
    hide Good, Settled, RunDo;
    DoHeadDecided(n, EnterLoop(st), env, w.depth, k, k1);
  }

  lemma {:induction false} DoHeadDecided(n: Node, st: St, env: Env, d: nat, k: nat, k1: nat)
    requires Good(n, env) && Settled(n, d) && n.kind.Do? && |n.kids| == 2 && k > 0 && k1 > 0
    requires st.mask == {} && st.broke == {} && st.continued == {}
    ensures RunDo(n, st, env, d, k, k) == RunDo(n, st, env, d, k1, k1)
    decreases n, 1, 1
  {
    ForDepth(n, d);
    assert UniformLoop(n.kids[1], n.kids[0]) ==> Repeats(n, d);
    hide Good, Settled, Run, RunScope, KidDepth, UniformLoop, Repeats, HasUniformLoop, Agree, KidChanges;
    KidDecided(n, 0, env, d);
    KidDecided(n, 1, env, d);
    ScopeDecided(n.kids[0], st, env, Body(n, d), k, k1);
    BodyAllOff(n, 0, st, env, d, k);
    var r := RunScope(n.kids[0], st, env, Body(n, d), k);
    if r.Done? || r.Jumped? {
      LoopStateAllOff(r.st);
      OneIterationDecides(n.kids[1], r.st, env, Plain(KidDepth(n, 0, d)), k, k1);
      StaysOff(n.kids[1], r.st, env, Plain(KidDepth(n, 0, d)), k);
      DoTestDecided(n, st, env, d, k, k1);
    }
  }

  lemma {:induction false} DoTestDecided(n: Node, st: St, env: Env, d: nat, k: nat, k1: nat)
    requires Good(n, env) && n.kind.Do? && |n.kids| == 2 && k > 0 && k1 > 0
    requires UniformLoop(n.kids[1], n.kids[0]) ==> Repeats(n, d)
    requires st.mask == {} && st.broke == {} && st.continued == {}
    requires RunScope(n.kids[0], st, env, Body(n, d), k) == RunScope(n.kids[0], st, env, Body(n, d), k1)
    requires
      var r := RunScope(n.kids[0], st, env, Body(n, d), k);
      && (r.Done? || r.Jumped?) && NextIteration(r.st) == r.st
      && var t := Run(n.kids[1], r.st, env, Plain(KidDepth(n, 0, d)), k);
         t == Run(n.kids[1], r.st, env, Plain(KidDepth(n, 0, d)), k1) && (t.Done? ==> t.st.mask == {})
    ensures RunDo(n, st, env, d, k, k) == RunDo(n, st, env, d, k1, k1)
  {
    hide Good, Run, RunScope, KidDepth, UniformLoop, Repeats, NextIteration, Body;
    if UniformLoop(n.kids[1], n.kids[0]) {
      BodyIdle(n, st, env, d, k);
      DoFromHead(n, st, env, d, k, k);
      DoFromHead(n, st, env, d, k1, k1);
    } else {
      var r := RunScope(n.kids[0], st, env, Body(n, d), k);
      var t := Run(n.kids[1], r.st, env, Plain(KidDepth(n, 0, d)), k);
      if t.Done? {
        TestedAllOff(n.kids[1], false, t);
      }
    }
  }

  lemma {:induction false} SwitchDecided(n: Node, st: St, env: Env, w: Place, k: nat, k1: nat)
    requires Good(n, env) && Settled(n, w.depth) && st.mask == {} && n.kind.Switch? && n.kids != []
    requires k > 0 && k1 > 0
    ensures RunSwitch(n, st, env, w, k) == RunSwitch(n, st, env, w, k1)
    decreases n, 1, |n.kids| + 1
  {
    hide Good, Settled, Run, RunLabels, KidDepth, Uniform, LeaveScope, Locals, FinishSwitch;
    assert KidDepth(n, 0, w.depth) == w.depth by { SwitchDepth(n, w.depth); }
    KidDecided(n, 0, env, w.depth);
    OneIterationDecides(n.kids[0], st, env, Plain(w.depth), k, k1);
    StaysOff(n.kids[0], st, env, Plain(w.depth), k);
    var t := Run(n.kids[0], st, env, Plain(w.depth), k);
    if t.Done? {
      var st1 := t.st.(broke := {}, mask := if Uniform(n.kids[0]) then t.st.mask else {});
      LabelsDecided(n, 1, st1, Part(t.value, 0), !Uniform(n.kids[0]), env, w.depth, k, k1);
    }
  }

  lemma SwitchDepth(n: Node, d: nat)
    requires n.kind.Switch?
    ensures KidDepth(n, 0, d) == d && forall i: nat :: i >= 1 ==> KidDepth(n, i, d) == KidDepth(n, 1, d)
  {
  }

  lemma {:induction false} LabelsDecided(
    n: Node, i: nat, st: St, c: seq<int>, started: bool, env: Env, d: nat, k: nat, k1: nat)
    requires Good(n, env) && Settled(n, d) && n.kind.Switch? && n.kids != [] && 1 <= i <= |n.kids|
    requires st.mask == {} && k > 0 && k1 > 0
    ensures RunLabels(n, i, st, {}, c, started, env, d, k) == RunLabels(n, i, st, {}, c, started, env, d, k1)
    decreases n, 1, |n.kids| - i
  {
    hide Good, Settled, Run, KidDepth, Uniform, Matches, HasUniformLoop, Agree, KidsChange;
    if i < |n.kids| {
      assert Starting(n, i, {}, c) == {} && st.(mask := {} + {}) == st;
      SwitchDepth(n, d);
      KidDecided(n, i, env, d);
      var now := started || Matches(n, n.kids[i], InLane(c, 0));
      LabelsDecided(n, i + 1, st, c, now, env, d, k, k1);
      OneIterationDecides(n.kids[i], st, env, Labels(n, d), k, k1);
      StaysOff(n.kids[i], st, env, Labels(n, d), k);
      var r := Run(n.kids[i], st, env, Labels(n, d), k);
      if r.Done? {
        LabelsDecided(n, i + 1, r.st, c, now, env, d, k, k1);
      }
    }
  }
}
