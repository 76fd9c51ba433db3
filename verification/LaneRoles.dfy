/** Which nodes record lanes as broken or continued, and which ones jump. */
module LaneRoles {
  import opened MaskContext
  import opened AllOffSafety
  import opened AllOffRun
  import opened LaneMeaning

  /** Lanes are recorded only by breaks and continues under varying ifs, and control jumps
      only where it may. */
  ghost predicate Roles(n: Node, st: St, r: Result, w: Place)
  {
    && (r.Done? || r.Jumped? ==>
          && |r.st.vars| == |st.vars|
          && (!VaryingJump(n, !w.direct, true) ==> r.st.broke == st.broke)
          && (!w.canContinue || !VaryingJump(n, !w.direct, false) ==> r.st.continued == st.continued))
    && (r.Jumped? ==> w.direct && (r.toBreak ==> DirectBreak(n)) && (!r.toBreak ==> w.canContinue))
  }

  ghost predicate Quiet(n: Node, under: bool, isBreak: bool)
  {
    forall i :: 0 <= i < |n.kids| ==> !VaryingJump(n.kids[i], under, isBreak)
  }

  ghost predicate KidsRoles(n: Node, st: St, rs: Results, w: Place)
  {
    match rs
    case AllDone(st1, _) =>
      && |st1.vars| == |st.vars|
      && (Quiet(n, !w.direct, true) ==> st1.broke == st.broke)
      && (!w.canContinue || Quiet(n, !w.direct, false) ==> st1.continued == st.continued)
    case Stopped(r) =>
      && (r.Jumped? ==>
            && |r.st.vars| == |st.vars|
            && (Quiet(n, !w.direct, true) ==> r.st.broke == st.broke)
            && (!w.canContinue || Quiet(n, !w.direct, false) ==> r.st.continued == st.continued))
      && !r.Done?
      && (r.Jumped? ==>
            && w.direct && (!r.toBreak ==> w.canContinue)
            && (r.toBreak ==> exists i :: 0 <= i < |n.kids| && DirectBreak(n.kids[i])))
  }

  lemma {:induction false} NoJumpIsQuiet(n: Node, under: bool, isBreak: bool)
    requires NoJump(n)
    ensures !VaryingJump(n, under, isBreak)
  {
    hide UnderIn;
    if VaryingJump(n, under, isBreak) {
      var i :| 0 <= i < |n.kids| && VaryingJump(n.kids[i], UnderIn(n, under), isBreak);
      NoJumpIsQuiet(n.kids[i], UnderIn(n, under), isBreak);
    }
  }

  lemma {:induction false} NoJumpIsNoBreak(n: Node)
    requires NoJump(n)
    ensures !DirectBreak(n)
  {
    hide Uniform;
    forall i | 0 <= i < |n.kids|
      ensures !DirectBreak(n.kids[i])
    {
      NoJumpIsNoBreak(n.kids[i]);
    }
  }

  lemma KidIsLaneCode(n: Node, i: nat, d: nat, g: nat)
    requires LaneCode(n, d, g) && i < |n.kids|
    ensures LaneCode(n.kids[i], KidDepth(n, i, d), g)
  {
  }

  lemma StrictDepth(n: Node, i: nat, d: nat)
    requires Strict(n.kind)
    ensures KidDepth(n, i, d) == d
  {
  }

  lemma ShapeOf(n: Node, d: nat, g: nat)
    requires LaneCode(n, d, g)
    ensures Shaped(n, d, g)
  {
  }

  lemma {:induction false} RunRoles(n: Node, st: St, env: Env, w: Place, k: nat, g: nat)
    requires LaneCode(n, w.depth, g)
    ensures Roles(n, st, Run(n, st, env, w, k), w)
    decreases n, 2, 0
  {
    ShapeOf(n, w.depth, g);
    hide LaneCode, Shaped, Roles, RunIf, RunSelect, RunLogical, RunSwitch, RunFor, RunDo, RunKids, Apply, Leave;
    if Strict(n.kind) {
      StrictRoles(n, st, env, w, k, g);
    } else if n.kind.If? {
      IfRoles(n, st, env, w, k, g);
    } else if n.kind.Select? {
      SelectRoles(n, st, env, w, k, g);
    } else if n.kind.Logical? {
      LogicalRoles(n, st, env, w, k, g);
    } else if n.kind.For? {
      WholeForRoles(n, st, env, w, k, g);
    } else if n.kind.Do? {
      WholeDoRoles(n, st, env, w, k, g);
    } else if n.kind.Switch? {
      SwitchRoles(n, st, env, w, k, g);
    } else {
      NotLaneCode(n, w.depth, g);
    }
  }

  lemma NotLaneCode(n: Node, d: nat, g: nat)
    requires n.kind.Foreach? || NullCall(n.kind)
    ensures !Shaped(n, d, g)
  {
  }

  lemma {:induction false} KidsAreRoles(n: Node, from: nat, st: St, env: Env, w: Place, k: nat, g: nat)
    requires LaneCode(n, w.depth, g) && Strict(n.kind)
    ensures KidsRoles(n, st, RunKids(n, from, st, env, w, k), w)
    decreases n, 1, |n.kids| - from
  {
    hide LaneCode, Run, VaryingJump, DirectBreak;
    if from < |n.kids| {
      StrictDepth(n, from, w.depth);
      KidIsLaneCode(n, from, w.depth, g);
      RunRoles(n.kids[from], st, env, w, k, g);
      var r := Run(n.kids[from], st, env, w, k);
      if r.Done? {
        KidsAreRoles(n, from + 1, r.st, env, w, k, g);
      }
    }
  }

  lemma {:induction false} StrictRoles(n: Node, st: St, env: Env, w: Place, k: nat, g: nat)
    requires LaneCode(n, w.depth, g) && Strict(n.kind)
    ensures Roles(n, st, Run(n, st, env, w, k), w)
    decreases n, 1, |n.kids| + 1
  {
    hide LaneCode, RunKids, Apply, Roles, KidsRoles, Shaped;
    KidsAreRoles(n, 0, st, env, w, k, g);
    ShapeOf(n, w.depth, g);
    if n.kind.Break? || n.kind.Continue? {
      JumpsAreLeaves(n, w.depth, g);
    }
    var rs := RunKids(n, 0, st, env, w, k);
    if rs.AllDone? {
      ApplyRoles(n, rs.st, rs.values, env, w, g);
      ThenRoles(n, st, rs, Apply(n, rs.st, rs.values, env, w), w);
    } else {
      StoppedRoles(n, st, rs, w);
    }
  }

  lemma JumpsAreLeaves(n: Node, d: nat, g: nat)
    requires Shaped(n, d, g) && (n.kind.Break? || n.kind.Continue?)
    ensures n.kids == []
  {
  }

  lemma ThenRoles(n: Node, st: St, rs: Results, r: Result, w: Place)
    requires Strict(n.kind) && KidsRoles(n, st, rs, w) && rs.AllDone? && Roles(n, rs.st, r, w)
    requires n.kind.Break? || n.kind.Continue? ==> n.kids == []
    ensures Roles(n, st, r, w)
  {
    QuietKids(n, !w.direct);
    hide VaryingJump, DirectBreak;
  }

  lemma StoppedRoles(n: Node, st: St, rs: Results, w: Place)
    requires Strict(n.kind) && KidsRoles(n, st, rs, w) && rs.Stopped?
    requires n.kind.Break? || n.kind.Continue? ==> n.kids == []
    ensures Roles(n, st, rs.r, w)
  {
    QuietKids(n, !w.direct);
    hide VaryingJump, DirectBreak;
  }

  /** A strict node records lanes if one of its children does, or it is a break or continue. */
  lemma QuietKids(n: Node, under: bool)
    requires Strict(n.kind) && (n.kind.Break? || n.kind.Continue? ==> n.kids == [])
    ensures forall isBreak: bool :: !VaryingJump(n, under, isBreak) ==> Quiet(n, under, isBreak)
    ensures (exists i :: 0 <= i < |n.kids| && DirectBreak(n.kids[i])) ==> DirectBreak(n)
  {
  }

  lemma ApplyRoles(n: Node, st: St, values: seq<Value>, env: Env, w: Place, g: nat)
    requires Shaped(n, w.depth, g) && Strict(n.kind)
    ensures Roles(n, st, Apply(n, st, values, env, w), w)
  {
    hide Store, WriteParts, Operate, Element, StoreFits, FitsParts, Changes, EvenPart, OneNumber, VarOK;
  }

  lemma LeaveRoles(n: Node, st: St, r: Result, w: Place, names: set<string>)
    requires Roles(n, st, r, w)
    ensures Roles(n, st, Leave(st, r, names), w)
  {
    hide VaryingJump, DirectBreak, Outside;
  }

  lemma {:induction false} ScopeRoles(part: Node, st: St, env: Env, w: Place, k: nat, g: nat)
    requires LaneCode(part, w.depth, g)
    ensures Roles(part, st, RunScope(part, st, env, w, k), w)
    decreases part, 3, 0
  {
    hide LaneCode, Run, Roles, Leave;
    RunRoles(part, st, env, w, k, g);
    LeaveRoles(part, st, Run(part, st, env, w, k), w, Declared(part));
  }

  /** A child that is evaluated for its value leaves all roles as they are. */
  ghost predicate Calm(st: St, r: Result)
  {
    !r.Jumped? && (r.Done? ==> |r.st.vars| == |st.vars| && r.st.broke == st.broke && r.st.continued == st.continued)
  }

  lemma {:induction false} PartRoles(n: Node, i: nat, st: St, env: Env, d: nat, k: nat, g: nat)
    requires LaneCode(n, d, g) && i < |n.kids| && NoJump(n.kids[i])
    ensures Calm(st, Run(n.kids[i], st, env, Plain(KidDepth(n, i, d)), k))
    decreases n, 0, 0
  {
    hide LaneCode, Run, NoJump, VaryingJump, DirectBreak;
    KidIsLaneCode(n, i, d, g);
    RunRoles(n.kids[i], st, env, Plain(KidDepth(n, i, d)), k, g);
    NoJumpIsQuiet(n.kids[i], true, true);
    NoJumpIsQuiet(n.kids[i], true, false);
  }

  lemma {:induction false} IfRoles(n: Node, st: St, env: Env, w: Place, k: nat, g: nat)
    requires LaneCode(n, w.depth, g) && n.kind.If? && |n.kids| == 3 && NoJump(n.kids[0])
    ensures Roles(n, st, RunIf(n, st, env, w, k), w)
    decreases n, 1, 0
  {
    hide LaneCode, Run, RunScope, RunSides, NoJump;
    PartRoles(n, 0, st, env, w.depth, k, g);
    var t := Run(n.kids[0], st, env, Plain(w.depth), k);
    if t.Done? {
      if Uniform(n.kids[0]) {
        var i := if InLane(Part(t.value, 0), 0) != 0 then 1 else 2;
        KidIsLaneCode(n, i, w.depth, g);
        ScopeRoles(n.kids[i], t.st, env, w, k, g);
      } else {
        SidesRoles(n, t.st, TrueLanes(t.st, Part(t.value, 0)), env, w, k, g);
      }
    }
  }

  lemma {:induction false} SideRoles(n: Node, i: nat, st: St, env: Env, w1: Place, k: nat, g: nat)
    requires w1.depth > 0 && LaneCode(n, w1.depth - 1, g) && n.kind.If? && |n.kids| == 3 && 1 <= i <= 2
    requires !Uniform(n.kids[0])
    ensures Roles(n.kids[i], st, RunSide(n.kids[i], st, n.kind.branch, env, w1, k), w1)
    decreases n, 0, 0
  {
    hide LaneCode, Run, RunScope, VaryingJump, DirectBreak;
    KidIsLaneCode(n, i, w1.depth - 1, g);
    ScopeRoles(n.kids[i], st, env, w1, k, g);
  }

  lemma {:induction false} SidesRoles(n: Node, st: St, test: Mask, env: Env, w: Place, k: nat, g: nat)
    requires LaneCode(n, w.depth, g) && n.kind.If? && |n.kids| == 3 && !Uniform(n.kids[0])
    ensures Roles(n, st, RunSides(n, st, test, env, w, k), w)
    decreases n, 0, 1
  {
    hide LaneCode, RunSide, DirectBreak, Uniform;
    var w1 := Place(false, w.depth + 1, w.canContinue);
    var st1 := st.(mask := st.mask * test);
    SideRoles(n, 1, st1, env, w1, k, g);
    var r := RunSide(n.kids[1], st1, n.kind.branch, env, w1, k);
    if r.Done? {
      SideRoles(n, 2, r.st.(mask := st.mask - test), env, w1, k, g);
    }
  }

  lemma {:induction false} OperandRoles(n: Node, i: nat, st: St, sc: bool, env: Env, d: nat, k: nat, g: nat)
    requires LaneCode(n, d, g) && n.kind.Select? && |n.kids| == 3 && 1 <= i <= 2 && NoJump(n.kids[i])
    ensures Calm(st, RunOperand(n.kids[i], st, sc, env, d, k))
    decreases n, 0, 1
  {
    hide LaneCode, Run, NoJump;
    PartRoles(n, i, st, env, d, k, g);
  }

  lemma {:induction false} SelectRoles(n: Node, st: St, env: Env, w: Place, k: nat, g: nat)
    requires LaneCode(n, w.depth, g) && n.kind.Select? && |n.kids| == 3
    requires forall i :: 0 <= i < 3 ==> NoJump(n.kids[i])
    ensures Roles(n, st, RunSelect(n, st, env, w, k), w)
    decreases n, 1, 0
  {
    hide LaneCode, Run, RunOperand, NoJump, VaryingJump, DirectBreak, Selected, Uniform;
    PartRoles(n, 0, st, env, w.depth, k, g);
    var t := Run(n.kids[0], st, env, Plain(w.depth), k);
    if t.Done? {
      PartRoles(n, 1, t.st, env, w.depth, k, g);
      PartRoles(n, 2, t.st, env, w.depth, k, g);
      var test := TrueLanes(t.st, Part(t.value, 0));
      var st1 := t.st.(mask := t.st.mask * test);
      OperandRoles(n, 1, st1, n.kind.shortCircuit1, env, w.depth, k, g);
      var r := RunOperand(n.kids[1], st1, n.kind.shortCircuit1, env, w.depth, k);
      if r.Done? {
        OperandRoles(n, 2, r.st.(mask := t.st.mask - test), n.kind.shortCircuit2, env, w.depth, k, g);
      }
    }
  }

  lemma {:induction false} LogicalRoles(n: Node, st: St, env: Env, w: Place, k: nat, g: nat)
    requires LaneCode(n, w.depth, g) && n.kind.Logical? && |n.kids| == 2
    requires NoJump(n.kids[0]) && NoJump(n.kids[1])
    ensures Roles(n, st, RunLogical(n, st, env, w, k), w)
    decreases n, 1, 0
  {
    hide LaneCode, Run, NoJump, VaryingJump, DirectBreak, Decided, Uniform;
    PartRoles(n, 0, st, env, w.depth, k, g);
    var t := Run(n.kids[0], st, env, Plain(w.depth), k);
    if t.Done? {
      PartRoles(n, 1, t.st, env, w.depth, k, g);
      PartRoles(n, 1, t.st.(mask := Undecided(n.kind.logical, t.st, Part(t.value, 0))), env, w.depth, k, g);
    }
  }

  // ---------- loops and switches keep theirs to themselves ----------

  lemma {:induction false} ForNeverJumps(n: Node, st: St, env: Env, d: nat, count: nat, k: nat, g: nat)
    requires LaneCode(n, d, g) && n.kind.For? && |n.kids| == 4 && NoJump(n.kids[1]) && NoJump(n.kids[2])
    ensures
      var r := RunFor(n, st, env, d, count, k);
      !r.Jumped? && (r.Done? ==> |r.st.vars| == |st.vars|)
    decreases n, 1, count
  {
    hide LaneCode, Run, RunScope, NoJump, VaryingJump, DirectBreak, UniformLoop, KidDepth, TrueLanes, Stops;
    ForDepths(n, d);
    PartRoles(n, 1, st, env, d, k, g);
    var uniformLoop := UniformLoop(n.kids[1], n.kids[3]);
    var t := Run(n.kids[1], st, env, Plain(KidDepth(n, 0, d)), k);
    if t.Done? && count > 0 {
      KidIsLaneCode(n, 3, d, g);
      ScopeRoles(n.kids[3], Tested(n.kids[1], uniformLoop, t), env, Body(n, d), k, g);
      var r := RunScope(n.kids[3], Tested(n.kids[1], uniformLoop, t), env, Body(n, d), k);
      if r.Done? || r.Jumped? {
        PartRoles(n, 2, NextIteration(r.st), env, d, k, g);
        var r2 := Run(n.kids[2], NextIteration(r.st), env, Plain(KidDepth(n, 0, d)), k);
        if r2.Done? {
          ForNeverJumps(n, r2.st, env, d, count - 1, k, g);
        }
      }
    }
  }

  lemma ForDepths(n: Node, d: nat)
    requires n.kind.For? || n.kind.Do?
    ensures forall i: nat :: KidDepth(n, i, d) == KidDepth(n, 0, d)
    ensures Body(n, d).depth == KidDepth(n, 0, d)
  {
    hide UniformLoop;
  }

  lemma {:induction false} DoNeverJumps(n: Node, st: St, env: Env, d: nat, count: nat, k: nat, g: nat)
    requires LaneCode(n, d, g) && n.kind.Do? && |n.kids| == 2 && NoJump(n.kids[1])
    ensures
      var r := RunDo(n, st, env, d, count, k);
      !r.Jumped? && (r.Done? ==> |r.st.vars| == |st.vars|)
    decreases n, 1, count
  {
    hide LaneCode, Run, RunScope, NoJump, VaryingJump, DirectBreak, UniformLoop, KidDepth, TrueLanes, Stops;
    ForDepths(n, d);
    KidIsLaneCode(n, 0, d, g);
    ScopeRoles(n.kids[0], st, env, Body(n, d), k, g);
    var r := RunScope(n.kids[0], st, env, Body(n, d), k);
    if r.Done? || r.Jumped? {
      PartRoles(n, 1, NextIteration(r.st), env, d, k, g);
      var t := Run(n.kids[1], NextIteration(r.st), env, Plain(KidDepth(n, 0, d)), k);
      if t.Done? && count > 0 {
        DoNeverJumps(n, Tested(n.kids[1], UniformLoop(n.kids[1], n.kids[0]), t), env, d, count - 1, k, g);
      }
    }
  }

  lemma LoopIsCalm(n: Node, st: St, r: Result, w: Place)
    requires !r.Jumped? && (r.Done? ==> |r.st.vars| == |st.vars|)
    ensures Roles(n, st, Leave(st, FinishLoop(st, r), Locals(n)), w)
  {
    hide VaryingJump, DirectBreak, Outside, Locals;
  }

  lemma {:induction false} WholeForRoles(n: Node, st: St, env: Env, w: Place, k: nat, g: nat)
    requires LaneCode(n, w.depth, g) && n.kind.For? && |n.kids| == 4
    requires forall i :: 0 <= i < 3 ==> NoJump(n.kids[i])
    ensures Roles(n, st, Run(n, st, env, w, k), w)
    decreases n, 1, k + 1
  {
    hide LaneCode, RunFor, NoJump, VaryingJump, DirectBreak, UniformLoop, KidDepth, LeaveScope, Locals;
    PartRoles(n, 0, st, env, w.depth, k, g);
    var r := Run(n.kids[0], st, env, Plain(KidDepth(n, 0, w.depth)), k);
    if r.Done? {
      ForNeverJumps(n, EnterLoop(r.st), env, w.depth, k, k, g);
      LoopIsCalm(n, st, RunFor(n, EnterLoop(r.st), env, w.depth, k, k), w);
    }
  }

  lemma {:induction false} WholeDoRoles(n: Node, st: St, env: Env, w: Place, k: nat, g: nat)
    requires LaneCode(n, w.depth, g) && n.kind.Do? && |n.kids| == 2 && NoJump(n.kids[1])
    ensures Roles(n, st, Run(n, st, env, w, k), w)
    decreases n, 1, k + 1
  {
    hide LaneCode, RunDo, NoJump, VaryingJump, DirectBreak;
    DoNeverJumps(n, EnterLoop(st), env, w.depth, k, k, g);
  }

  lemma LabelDepth(n: Node, i: nat, d: nat)
    requires n.kind.Switch? && n.kids != [] && i > 0
    ensures KidDepth(n, i, d) == Labels(n, d).depth && !Labels(n, d).canContinue
  {
    hide UniformFlow;
  }

  lemma {:induction false} LabelsNeverJump(
    n: Node, i: nat, st: St, entry: Mask, c: seq<int>, started: bool, env: Env, d: nat, k: nat, g: nat)
    requires LaneCode(n, d, g) && n.kind.Switch? && n.kids != [] && i > 0
    ensures
      var r := RunLabels(n, i, st, entry, c, started, env, d, k);
      !r.Jumped? && (r.Done? ==> |r.st.vars| == |st.vars| && r.st.continued == st.continued)
    decreases n, 1, |n.kids| - i
  {
    hide LaneCode, Run, VaryingJump, DirectBreak, Labels, Starting, Matches, Uniform;
    if i < |n.kids| {
      var now := started || Matches(n, n.kids[i], InLane(c, 0));
      var st1 := if Uniform(n.kids[0]) then st else st.(mask := st.mask + Starting(n, i, entry, c));
      LabelDepth(n, i, d);
      KidIsLaneCode(n, i, d, g);
      RunRoles(n.kids[i], st1, env, Labels(n, d), k, g);
      LabelsNeverJump(n, i + 1, st1, entry, c, now, env, d, k, g);
      var r := Run(n.kids[i], st1, env, Labels(n, d), k);
      if r.Done? {
        LabelsNeverJump(n, i + 1, r.st, entry, c, now, env, d, k, g);
      }
    }
  }

  lemma {:induction false} SwitchRoles(n: Node, st: St, env: Env, w: Place, k: nat, g: nat)
    requires LaneCode(n, w.depth, g) && n.kind.Switch? && n.kids != [] && NoJump(n.kids[0])
    ensures Roles(n, st, RunSwitch(n, st, env, w, k), w)
    decreases n, 1, |n.kids| + 1
  {
    hide LaneCode, Run, RunLabels, NoJump, VaryingJump, DirectBreak, LeaveScope, Locals, Uniform;
    PartRoles(n, 0, st, env, w.depth, k, g);
    var t := Run(n.kids[0], st, env, Plain(w.depth), k);
    if t.Done? {
      var c, uniform := Part(t.value, 0), Uniform(n.kids[0]);
      var st1 := t.st.(broke := {}, mask := if uniform then t.st.mask else {});
      LabelsNeverJump(n, 1, st1, t.st.mask, c, !uniform, env, w.depth, k, g);
      SwitchIsCalm(n, st, t.st, RunLabels(n, 1, st1, t.st.mask, c, !uniform, env, w.depth, k), w);
    }
  }

  lemma SwitchIsCalm(n: Node, st: St, st1: St, r: Result, w: Place)
    requires n.kind.Switch? && !r.Jumped? && |st1.vars| == |st.vars|
    requires st1.broke == st.broke && st1.continued == st.continued
    requires r.Done? ==> |r.st.vars| == |st1.vars| && r.st.continued == st1.continued
    ensures Roles(n, st, Leave(st, FinishSwitch(st1, r), Locals(n)), w)
  {
    hide VaryingJump, DirectBreak, Outside, Locals;
  }

  // ---------- a lane on its own ----------

  /** A lane leaves only by a break, continue or return. */
  lemma {:induction false} NeverLeaves(n: Node, l: Lane, u: Memory, m: Memory, inLoop: bool, k: nat)
    requires NoJump(n)
    ensures !LaneRun(n, l, u, m, inLoop, k).Left?
    decreases n, 2, 0
  {
    hide NoJump, LaneApply, LaneFor, LaneDo, LaneLabels, LaneKids, After, LaneScope, Locals;
    var any := LaneRun(n, l, u, m, inLoop, k);
    if n.kind.If? && |n.kids| == 3 {
      PartStays(n, 0, l, u, m, false, k);
      var t := LaneRun(n.kids[0], l, u, m, false, k);
      if t.LaneDone? {
        ScopeStays(n, if Number(t.value, 0) != 0 then 1 else 2, l, t.u, t.m, inLoop, k);
      }
    } else if n.kind.Select? && |n.kids| == 3 {
      PartStays(n, 0, l, u, m, false, k);
      var t := LaneRun(n.kids[0], l, u, m, false, k);
      if t.LaneDone? {
        PartStays(n, if Number(t.value, 0) != 0 then 1 else 2, l, t.u, t.m, false, k);
      }
    } else if n.kind.Logical? && |n.kids| == 2 {
      PartStays(n, 0, l, u, m, false, k);
      var t := LaneRun(n.kids[0], l, u, m, false, k);
      if t.LaneDone? {
        PartStays(n, 1, l, t.u, t.m, false, k);
      }
    } else if n.kind.For? && |n.kids| == 4 {
      PartStays(n, 0, l, u, m, false, k);
      var r := LaneRun(n.kids[0], l, u, m, false, k);
      if r.LaneDone? {
        ForStays(n, l, r.u, r.m, k, k);
      }
    } else if n.kind.Do? && |n.kids| == 2 {
      DoStays(n, l, u, m, k, k);
    } else if n.kind.Switch? && n.kids != [] {
      PartStays(n, 0, l, u, m, false, k);
      var t := LaneRun(n.kids[0], l, u, m, false, k);
      if t.LaneDone? {
        LabelsStay(n, LabelOf(n, Number(t.value, 0)), l, t.u, t.m, k);
      }
    } else if !n.kind.If? && !n.kind.Select? && !n.kind.Logical? && !OwnsJumps(n.kind) {
      KidsStay(n, 0, l, u, m, inLoop, k);
      var r := LaneKids(n, 0, l, u, m, inLoop, k);
      if r.LaneAll? {
        NodeStays(n, l, r.u, r.m, r.values, inLoop);
      }
    }
  }

  lemma {:induction false} PartStays(n: Node, i: nat, l: Lane, u: Memory, m: Memory, inLoop: bool, k: nat)
    requires NoJump(n) && i < |n.kids|
    ensures !LaneRun(n.kids[i], l, u, m, inLoop, k).Left?
    decreases n, 0, 0
  {
    assert NoJump(n.kids[i]);
    hide NoJump, LaneRun;
    NeverLeaves(n.kids[i], l, u, m, inLoop, k);
  }

  lemma {:induction false} ScopeStays(n: Node, i: nat, l: Lane, u: Memory, m: Memory, inLoop: bool, k: nat)
    requires NoJump(n) && i < |n.kids|
    ensures !LaneScope(n.kids[i], l, u, m, inLoop, k).Left?
    decreases n, 0, 1
  {
    hide NoJump, LaneRun, After;
    PartStays(n, i, l, u, m, inLoop, k);
  }

  lemma NodeStays(n: Node, l: Lane, u: Memory, m: Memory, values: seq<seq<int>>, inLoop: bool)
    requires NoJump(n)
    ensures !LaneApply(n, l, u, m, values, inLoop).Left?
  {
    hide Stored, Change;
  }

  lemma {:induction false} KidsStay(n: Node, from: nat, l: Lane, u: Memory, m: Memory, inLoop: bool, k: nat)
    requires NoJump(n)
    ensures
      var r := LaneKids(n, from, l, u, m, inLoop, k);
      r.LaneStopped? ==> !r.r.Left?
    decreases n, 1, |n.kids| - from
  {
    hide NoJump, LaneRun;
    if from < |n.kids| {
      PartStays(n, from, l, u, m, inLoop, k);
      var r := LaneRun(n.kids[from], l, u, m, inLoop, k);
      if r.LaneDone? {
        KidsStay(n, from + 1, l, r.u, r.m, inLoop, k);
      }
    }
  }

  lemma {:induction false} ForStays(n: Node, l: Lane, u: Memory, m: Memory, count: nat, k: nat)
    requires NoJump(n) && n.kind.For? && |n.kids| == 4
    ensures !LaneFor(n, l, u, m, count, k).Left?
    decreases n, 1, count
  {
    hide NoJump, LaneRun, LaneScope;
    PartStays(n, 1, l, u, m, false, k);
    var t := LaneRun(n.kids[1], l, u, m, false, k);
    if t.LaneDone? && count > 0 {
      ScopeStays(n, 3, l, t.u, t.m, true, k);
      var r := LaneScope(n.kids[3], l, t.u, t.m, true, k);
      if r.LaneDone? {
        PartStays(n, 2, l, r.u, r.m, false, k);
        var s := LaneRun(n.kids[2], l, r.u, r.m, false, k);
        if s.LaneDone? {
          ForStays(n, l, s.u, s.m, count - 1, k);
        }
      }
    }
  }

  lemma {:induction false} DoStays(n: Node, l: Lane, u: Memory, m: Memory, count: nat, k: nat)
    requires NoJump(n) && n.kind.Do? && |n.kids| == 2
    ensures !LaneDo(n, l, u, m, count, k).Left?
    decreases n, 1, count
  {
    hide NoJump, LaneRun, LaneScope;
    ScopeStays(n, 0, l, u, m, true, k);
    var r := LaneScope(n.kids[0], l, u, m, true, k);
    if r.LaneDone? {
      PartStays(n, 1, l, r.u, r.m, false, k);
      var t := LaneRun(n.kids[1], l, r.u, r.m, false, k);
      if t.LaneDone? && count > 0 {
        DoStays(n, l, t.u, t.m, count - 1, k);
      }
    }
  }

  lemma {:induction false} LabelsStay(n: Node, i: nat, l: Lane, u: Memory, m: Memory, k: nat)
    requires NoJump(n) && n.kind.Switch? && n.kids != []
    ensures !LaneLabels(n, i, l, u, m, k).Left?
    decreases n, 1, |n.kids| - i
  {
    hide NoJump, LaneRun;
    if i < |n.kids| {
      PartStays(n, i, l, u, m, false, k);
      var r := LaneRun(n.kids[i], l, u, m, false, k);
      if r.LaneDone? {
        LabelsStay(n, i + 1, l, r.u, r.m, k);
      }
    }
  }

  /** Without a continue it does not matter whether there is a loop around. */
  lemma {:induction false} SamePlace(n: Node, l: Lane, u: Memory, m: Memory, inLoop: bool, k: nat)
    requires NoJump(n)
    ensures LaneRun(n, l, u, m, inLoop, k) == LaneRun(n, l, u, m, false, k)
    decreases n, 1, 0
  {
    hide NoJump, LaneApply, LaneFor, LaneDo, LaneLabels, LaneKids, After, Declared, Locals;
    if n.kind.If? && |n.kids| == 3 {
      var t := LaneRun(n.kids[0], l, u, m, false, k);
      if t.LaneDone? {
        var i := if Number(t.value, 0) != 0 then 1 else 2;
        KidSamePlace(n, i, l, t.u, t.m, inLoop, k);
      }
    } else if !n.kind.If? && !n.kind.Select? && !n.kind.Logical? && !OwnsJumps(n.kind) {
      KidsSamePlace(n, 0, l, u, m, inLoop, k);
      var r := LaneKids(n, 0, l, u, m, inLoop, k);
      if r.LaneAll? {
        NodeSamePlace(n, l, r.u, r.m, r.values, inLoop);
      }
    }
  }

  lemma NodeSamePlace(n: Node, l: Lane, u: Memory, m: Memory, values: seq<seq<int>>, inLoop: bool)
    requires NoJump(n)
    ensures LaneApply(n, l, u, m, values, inLoop) == LaneApply(n, l, u, m, values, false)
  {
    hide Stored, Change;
  }

  lemma {:induction false} KidSamePlace(n: Node, i: nat, l: Lane, u: Memory, m: Memory, inLoop: bool, k: nat)
    requires NoJump(n) && i < |n.kids|
    ensures LaneRun(n.kids[i], l, u, m, inLoop, k) == LaneRun(n.kids[i], l, u, m, false, k)
    decreases n, 0, 0
  {
    assert NoJump(n.kids[i]);
    hide NoJump, LaneRun;
    SamePlace(n.kids[i], l, u, m, inLoop, k);
  }

  lemma {:induction false} KidsSamePlace(n: Node, from: nat, l: Lane, u: Memory, m: Memory, inLoop: bool, k: nat)
    requires NoJump(n)
    ensures LaneKids(n, from, l, u, m, inLoop, k) == LaneKids(n, from, l, u, m, false, k)
    decreases n, 0, |n.kids| - from
  {
    hide NoJump, LaneRun;
    if from < |n.kids| {
      KidSamePlace(n, from, l, u, m, inLoop, k);
      var r := LaneRun(n.kids[from], l, u, m, inLoop, k);
      if r.LaneDone? {
        KidsSamePlace(n, from + 1, l, r.u, r.m, inLoop, k);
      }
    }
  }

  // ---------- loops with varying control flow ----------

  /** No switch and no foreach, and nothing below a break or continue. */
  predicate OnlyLoops(n: Node)
  {
    && !n.kind.Switch? && !n.kind.Foreach? && (n.kind.Break? || n.kind.Continue? ==> n.kids == [])
    && forall i :: 0 <= i < |n.kids| ==> OnlyLoops(n.kids[i])
  }

  lemma {:induction false} JumpVaries(n: Node, under: bool, isBreak: bool)
    requires OnlyLoops(n) && VaryingJump(n, under, isBreak)
    ensures HasVaryingBreakOrContinue(n, under)
  {
    hide Uniform, UnderIn;
    if !n.kind.Break? && !n.kind.Continue? {
      KidsVary(n, under);
      hide HasVaryingBreakOrContinue;
      var i :| 0 <= i < |n.kids| && VaryingJump(n.kids[i], UnderIn(n, under), isBreak);
      JumpVaries(n.kids[i], UnderIn(n, under), isBreak);
    }
  }

  lemma {:induction false} SomeJumpVaries(n: Node, under: bool) returns (isBreak: bool)
    requires OnlyLoops(n) && HasVaryingBreakOrContinue(n, under)
    ensures VaryingJump(n, under, isBreak)
  {
    hide Uniform, UnderIn;
    isBreak := n.kind.Break?;
    if !n.kind.Break? && !n.kind.Continue? {
      assert !OwnsJumps(n.kind);
      KidsVary(n, under);
      hide HasVaryingBreakOrContinue;
      var i :| 0 <= i < |n.kids| && HasVaryingBreakOrContinue(n.kids[i], UnderIn(n, under));
      isBreak := SomeJumpVaries(n.kids[i], UnderIn(n, under));
    }
  }

  /** A loop body is taken to have varying control flow exactly if it has a break or a
      continue of its own under a varying if. */
  lemma {:induction false} VaryingFlowExact(n: Node, under: bool)
    requires OnlyLoops(n)
    ensures HasVaryingBreakOrContinue(n, under) <==> VaryingJump(n, under, true) || VaryingJump(n, under, false)
  {
    hide HasVaryingBreakOrContinue, VaryingJump, OnlyLoops;
    if HasVaryingBreakOrContinue(n, under) {
      var isBreak := SomeJumpVaries(n, under);
    }
    if VaryingJump(n, under, true) {
      JumpVaries(n, under, true);
    }
    if VaryingJump(n, under, false) {
      JumpVaries(n, under, false);
    }
  }

  lemma KidsVary(n: Node, under: bool)
    requires !n.kind.Break? && !n.kind.Continue? && !n.kind.For? && !n.kind.Do? && !n.kind.Foreach?
    ensures HasVaryingBreakOrContinue(n, under) <==>
      exists i :: 0 <= i < |n.kids| && HasVaryingBreakOrContinue(n.kids[i], UnderIn(n, under))
  {
    hide Uniform;
    if HasVaryingBreakOrContinue(n, under) {
      var i :| 0 <= i < |n.kids| && HasVaryingBreakOrContinue(n.kids[i], UnderIn(n, under));
    }
  }
}
