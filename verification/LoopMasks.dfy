/** What every construct does to the lanes that are on: none is lost and none comes on
    that was not on before. */
module LoopMasks {
  import opened MaskContext
  import opened AllOffSafety
  import opened AllOffRun
  import opened LaneMeaning

  /** A lane that is on has not broken, continued or returned. */
  predicate Apart(st: St)
  {
    st.mask !! (st.broke + st.continued + st.returned)
  }

  /** Every lane that was on is still on or has taken exactly one way out; the others are
      where they were. */
  ghost predicate Moves(st: St, st1: St)
  {
    && st1.mask == st.mask - st1.broke - st1.continued - st1.returned
    && st.broke <= st1.broke <= st.broke + st.mask
    && st.continued <= st1.continued <= st.continued + st.mask
    && st.returned <= st1.returned <= st.returned + st.mask
    && st.mask !! (st1.broke * st1.continued + st1.broke * st1.returned + st1.continued * st1.returned)
  }

  predicate SameLanes(st: St, st1: St)
  {
    st1.mask == st.mask && st1.broke == st.broke && st1.continued == st.continued && st1.returned == st.returned
  }

  /** No jump, and all lanes stay where they are. */
  ghost predicate KeepsLanes(st: St, r: Result)
  {
    !r.Jumped? && (r.Done? ==> SameLanes(st, r.st))
  }

  /** What `effect` or a callee gives the meaning of leaves the lanes alone. */
  ghost predicate EffectKeeps(n: Node, env: Env)
  {
    && (HasEffect(n.kind) ==> forall st: St, values: seq<Value> :: KeepsLanes(st, env.effect(n, st, values)))
    && (n.kind.Call? && n.kind.func.Some? && n.kind.func.value in env.functions ==>
          forall st: St, values: seq<Value> :: KeepsLanes(st, env.functions[n.kind.func.value].run(st, values)))
  }

  predicate HasEffect(kind: Kind)
  {
    || (kind.Index? && !kind.base.Array?) || (kind.Member? && kind.dereference)
    || kind.PtrDeref? || kind.New? || kind.Sync? || kind.Alloca?
    || kind.Print? || kind.Assert? || kind.Delete? || kind.Foreach?
  }

  /** Tests, steps, switch values and operands do not jump, and labels are distinct. */
  predicate JumpsInPlace(n: Node)
  {
    match n.kind
    case If(_) => n.kids != [] ==> NoJump(n.kids[0])
    case Switch => n.kids != [] ==> NoJump(n.kids[0]) && DistinctLabels(n)
    case For => |n.kids| == 4 ==> NoJump(n.kids[0]) && NoJump(n.kids[1]) && NoJump(n.kids[2])
    case Do => |n.kids| == 2 ==> NoJump(n.kids[1])
    case Select(_, _) => forall i :: 0 <= i < |n.kids| ==> NoJump(n.kids[i])
    case Logical(_, _) => forall i :: 0 <= i < |n.kids| ==> NoJump(n.kids[i])
    case _ => true
  }

  ghost predicate WellFormed(n: Node, env: Env)
  {
    JumpsInPlace(n) && EffectKeeps(n, env) && forall i :: 0 <= i < |n.kids| ==> WellFormed(n.kids[i], env)
  }

  ghost predicate Conserves(n: Node, st: St, r: Result, w: Place)
  {
    && (r.Done? || r.Jumped? ==> Apart(r.st) && Moves(st, r.st))
    && (r.Jumped? ==> w.direct && (!r.toBreak ==> w.canContinue))
    && ((r.Done? || r.Jumped?) && !w.canContinue ==> r.st.continued == st.continued)
    && (NoJump(n) ==> KeepsLanes(st, r))
  }

  // ---------- composition ----------

  lemma MovesOn(a: St, b: St, c: St)
    requires Apart(a) && Moves(a, b) && Moves(b, c)
    ensures Apart(b) && Apart(c) && Moves(a, c)
  {
  }

  lemma StaysApart(a: St, b: St)
    requires Apart(a) && Moves(a, b)
    ensures Apart(b)
  {
  }

  lemma MovesNot(a: St, b: St)
    requires Apart(a) && SameLanes(a, b)
    ensures Moves(a, b)
  {
  }

  // ---------- the run ----------

  lemma {:induction false} RunConserves(n: Node, st: St, env: Env, w: Place, k: nat)
    requires WellFormed(n, env) && Apart(st)
    ensures Conserves(n, st, Run(n, st, env, w, k), w)
    decreases n, 2, 0
  {
    assert JumpsInPlace(n) && EffectKeeps(n, env);
    hide WellFormed, Apart, Moves, NoJump, RunIf, RunSelect, RunLogical, RunSwitch, RunFor, RunDo, RunKids, Apply;
    hide Leave, FinishLoop;
    if Strict(n.kind) {
      StrictConserves(n, st, env, w, k);
    } else if n.kind.If? {
      if |n.kids| == 3 {
        IfConserves(n, st, env, w, k);
      }
    } else if n.kind.Select? {
      if |n.kids| == 3 {
        SelectConserves(n, st, env, w, k);
      }
    } else if n.kind.Logical? {
      if |n.kids| == 2 {
        LogicalConserves(n, st, env, w, k);
      }
    } else if n.kind.For? {
      if |n.kids| == 4 {
        WholeForConserves(n, st, env, w, k);
      }
    } else if n.kind.Do? {
      if |n.kids| == 2 {
        WholeDoConserves(n, st, env, w, k);
      }
    } else if n.kind.Switch? {
      if n.kids != [] {
        SwitchConserves(n, st, env, w, k);
      }
    } else {
      MovesNot(st, st);
      if n.kind.Foreach? && Run(n, st, env, w, k).Done? {
        MovesNot(st, Run(n, st, env, w, k).st);
        StaysApart(st, Run(n, st, env, w, k).st);
      }
    }
  }

  ghost predicate KidsConserve(n: Node, st: St, rs: Results, w: Place)
  {
    match rs
    case AllDone(st1, _) =>
      && Apart(st1) && Moves(st, st1) && (NoJump(n) ==> SameLanes(st, st1))
      && (!w.canContinue ==> st1.continued == st.continued)
    case Stopped(r) =>
      && !r.Done?
      && (r.Jumped? ==>
            && Apart(r.st) && Moves(st, r.st) && !NoJump(n) && w.direct
            && if w.canContinue then true else r.toBreak && r.st.continued == st.continued)
  }

  lemma {:induction false} KidsAreConserved(n: Node, from: nat, st: St, env: Env, w: Place, k: nat)
    requires WellFormed(n, env) && Apart(st)
    ensures KidsConserve(n, st, RunKids(n, from, st, env, w, k), w)
    decreases n, 1, |n.kids| - from
  {
    hide Run, Apart, Moves;
    MovesNot(st, st);
    if from < |n.kids| {
      assert WellFormed(n.kids[from], env);
      assert NoJump(n) ==> NoJump(n.kids[from]);
      hide WellFormed, NoJump;
      RunConserves(n.kids[from], st, env, w, k);
      var r := Run(n.kids[from], st, env, w, k);
      if r.Done? {
        KidsAreConserved(n, from + 1, r.st, env, w, k);
        var rs := RunKids(n, from + 1, r.st, env, w, k);
        if rs.AllDone? {
          MovesOn(st, r.st, rs.st);
        } else if rs.r.Jumped? {
          MovesOn(st, r.st, rs.r.st);
        }
      }
    }
  }

  lemma {:induction false} StrictConserves(n: Node, st: St, env: Env, w: Place, k: nat)
    requires WellFormed(n, env) && Strict(n.kind) && Apart(st)
    ensures Conserves(n, st, Run(n, st, env, w, k), w)
    decreases n, 1, |n.kids| + 1
  {
    assert EffectKeeps(n, env);
    KidsAreConserved(n, 0, st, env, w, k);
    hide WellFormed, EffectKeeps, Apart, Moves, NoJump, Apply, RunKids;
    var rs := RunKids(n, 0, st, env, w, k);
    if rs.AllDone? {
      ApplyConserves(n, rs.st, rs.values, env, w);
      var r := Apply(n, rs.st, rs.values, env, w);
      if r.Done? || r.Jumped? {
        MovesOn(st, rs.st, r.st);
      }
    }
  }

  lemma ApplyConserves(n: Node, st: St, values: seq<Value>, env: Env, w: Place)
    requires EffectKeeps(n, env) && Strict(n.kind) && Apart(st)
    ensures Conserves(n, st, Apply(n, st, values, env, w), w)
  {
    hide Store, WriteParts, Operate, Element, LValue;
    var r := Apply(n, st, values, env, w);
    if n.kind.Break? || n.kind.Continue? || n.kind.Return? {
      hide EffectKeeps;
      assert !NoJump(n);
    } else {
      assert KeepsLanes(st, r) by {
        hide Apart;
      }
      hide Apply, EffectKeeps, NoJump;
    }
  }

  lemma LeaveConserves(n: Node, st: St, r: Result, w: Place, names: set<string>)
    requires Conserves(n, st, r, w)
    ensures Conserves(n, st, Leave(st, r, names), w)
  {
    hide NoJump, Outside;
  }

  lemma {:induction false} ScopeConserves(part: Node, st: St, env: Env, w: Place, k: nat)
    requires WellFormed(part, env) && Apart(st)
    ensures Conserves(part, st, RunScope(part, st, env, w, k), w)
    decreases part, 3, 0
  {
    hide WellFormed, Run, Conserves, Leave, Apart;
    RunConserves(part, st, env, w, k);
    LeaveConserves(part, st, Run(part, st, env, w, k), w, Declared(part));
  }

  /** A child without jumps. */
  lemma {:induction false} PartKeeps(n: Node, i: nat, st: St, env: Env, w: Place, k: nat)
    requires WellFormed(n, env) && i < |n.kids| && NoJump(n.kids[i]) && Apart(st)
    ensures KeepsLanes(st, Run(n.kids[i], st, env, w, k))
    ensures Run(n.kids[i], st, env, w, k).Done? ==> Apart(Run(n.kids[i], st, env, w, k).st)
    decreases n, 0, 0
  {
    assert WellFormed(n.kids[i], env);
    hide WellFormed, Run, NoJump;
    RunConserves(n.kids[i], st, env, w, k);
  }

  lemma {:induction false} IfConserves(n: Node, st: St, env: Env, w: Place, k: nat)
    requires WellFormed(n, env) && n.kind.If? && |n.kids| == 3 && Apart(st)
    ensures Conserves(n, st, RunIf(n, st, env, w, k), w)
    decreases n, 1, 0
  {
    assert WellFormed(n.kids[1], env) && WellFormed(n.kids[2], env) && NoJump(n.kids[0]);
    assert NoJump(n) ==> NoJump(n.kids[1]) && NoJump(n.kids[2]);
    hide WellFormed, NoJump, Run, RunScope, RunSides, Apart, Moves, Uniform;
    PartKeeps(n, 0, st, env, Plain(w.depth), k);
    var t := Run(n.kids[0], st, env, Plain(w.depth), k);
    if t.Done? {
      MovesNot(st, t.st);
      var i := if InLane(Part(t.value, 0), 0) != 0 then 1 else 2;
      if Uniform(n.kids[0]) {
        ScopeConserves(n.kids[i], t.st, env, w, k);
        ThenConserves(n, i, st, t.st, RunScope(n.kids[i], t.st, env, w, k), w);
      } else {
        var test := TrueLanes(t.st, Part(t.value, 0));
        SidesConserve(n, t.st, test, env, w, k);
        ThenConserves(n, i, st, t.st, RunSides(n, t.st, test, env, w, k), w);
      }
    }
  }

  lemma ThenConserves(n: Node, i: nat, st: St, st1: St, r: Result, w: Place)
    requires Apart(st) && SameLanes(st, st1) && i < |n.kids|
    requires Conserves(n.kids[i], st1, r, w) || Conserves(n, st1, r, w)
    ensures Conserves(n, st, r, w)
  {
    assert NoJump(n) ==> NoJump(n.kids[i]);
    hide NoJump;
  }

  lemma {:induction false} SideConserves(side: Node, st: St, branch: bool, env: Env, w: Place, k: nat)
    requires WellFormed(side, env) && Apart(st)
    ensures Conserves(side, st, RunSide(side, st, branch, env, w, k), w)
    decreases side, 4, 0
  {
    hide WellFormed, NoJump, RunScope;
    ScopeConserves(side, st, env, w, k);
    MovesNot(st, st);
  }

  lemma {:induction false} SidesConserve(n: Node, st: St, test: Mask, env: Env, w: Place, k: nat)
    requires WellFormed(n, env) && n.kind.If? && |n.kids| == 3 && Apart(st)
    ensures Conserves(n, st, RunSides(n, st, test, env, w, k), w)
    decreases n, 0, 0
  {
    assert WellFormed(n.kids[1], env) && WellFormed(n.kids[2], env);
    assert NoJump(n) ==> NoJump(n.kids[1]) && NoJump(n.kids[2]);
    hide WellFormed, NoJump, RunSide, Moves, Apart;
    var w1 := Place(false, w.depth + 1, w.canContinue);
    var st1 := st.(mask := st.mask * test);
    OneSide(st, st1);
    SideConserves(n.kids[1], st1, n.kind.branch, env, w1, k);
    var r := RunSide(n.kids[1], st1, n.kind.branch, env, w1, k);
    if r.Done? {
      var st2 := r.st.(mask := st.mask - test);
      OtherSide(st, test, r.st);
      SideConserves(n.kids[2], st2, n.kind.branch, env, w1, k);
      var r2 := RunSide(n.kids[2], st2, n.kind.branch, env, w1, k);
      if r2.Done? {
        BothSidesMove(st, test, r.st, r2.st);
        if NoJump(n) {
          assert SameLanes(st1, r.st) && SameLanes(st2, r2.st);
          NobodyLeft(st);
        }
      }
    }
  }

  lemma OneSide(st: St, st1: St)
    requires Apart(st) && st1.mask <= st.mask && st1 == st.(mask := st1.mask)
    ensures Apart(st1)
  {
  }

  lemma OtherSide(st: St, test: Mask, st1: St)
    requires Apart(st) && Moves(st.(mask := st.mask * test), st1)
    ensures Apart(st1.(mask := st.mask - test))
  {
  }

  lemma NobodyLeft(st: St)
    requires Apart(st)
    ensures st.mask - st.returned - st.broke - st.continued == st.mask
  {
  }

  /** The two sides of an if under complementary masks. */
  lemma BothSidesMove(st: St, test: Mask, st1: St, st2: St)
    requires Apart(st) && Moves(st.(mask := st.mask * test), st1) && Moves(st1.(mask := st.mask - test), st2)
    ensures
      var st3 := st2.(mask := st.mask - st2.returned - st2.broke - st2.continued);
      Apart(st3) && Moves(st, st3)
  {
  }

  lemma {:induction false} OperandKeeps(n: Node, i: nat, st: St, shortCircuit: bool, env: Env, d: nat, k: nat)
    requires WellFormed(n, env) && i < |n.kids| && NoJump(n.kids[i]) && Apart(st)
    ensures KeepsLanes(st, RunOperand(n.kids[i], st, shortCircuit, env, d, k))
    decreases n, 0, 1
  {
    hide WellFormed, NoJump, Run, Apart;
    PartKeeps(n, i, st, env, Plain(d), k);
  }

  lemma {:induction false} SelectConserves(n: Node, st: St, env: Env, w: Place, k: nat)
    requires WellFormed(n, env) && n.kind.Select? && |n.kids| == 3 && Apart(st)
    ensures Conserves(n, st, RunSelect(n, st, env, w, k), w)
    decreases n, 1, 0
  {
    assert NoJump(n.kids[0]) && NoJump(n.kids[1]) && NoJump(n.kids[2]);
    hide WellFormed, NoJump, Run, RunOperand, Selected, Uniform, Moves, Apart;
    PartKeeps(n, 0, st, env, Plain(w.depth), k);
    var t := Run(n.kids[0], st, env, Plain(w.depth), k);
    if t.Done? {
      MovesNot(st, t.st);
      PartKeeps(n, 1, t.st, env, Plain(w.depth), k);
      PartKeeps(n, 2, t.st, env, Plain(w.depth), k);
      var test := TrueLanes(t.st, Part(t.value, 0));
      var st1 := t.st.(mask := t.st.mask * test);
      OneSide(t.st, st1);
      OperandKeeps(n, 1, st1, n.kind.shortCircuit1, env, w.depth, k);
      var r := RunOperand(n.kids[1], st1, n.kind.shortCircuit1, env, w.depth, k);
      if r.Done? {
        var st2 := r.st.(mask := t.st.mask - test);
        OtherOperand(t.st, test, r.st);
        OperandKeeps(n, 2, st2, n.kind.shortCircuit2, env, w.depth, k);
        var r2 := RunOperand(n.kids[2], st2, n.kind.shortCircuit2, env, w.depth, k);
        if r2.Done? {
          MovesNot(st, r2.st.(mask := t.st.mask));
          StaysApart(st, r2.st.(mask := t.st.mask));
        }
      }
    }
  }

  lemma OtherOperand(st: St, test: Mask, st1: St)
    requires Apart(st) && SameLanes(st.(mask := st.mask * test), st1)
    ensures Apart(st1.(mask := st.mask - test))
  {
  }

  lemma {:induction false} LogicalConserves(n: Node, st: St, env: Env, w: Place, k: nat)
    requires WellFormed(n, env) && n.kind.Logical? && |n.kids| == 2 && Apart(st)
    ensures Conserves(n, st, RunLogical(n, st, env, w, k), w)
    decreases n, 1, 0
  {
    assert NoJump(n.kids[0]) && NoJump(n.kids[1]);
    hide WellFormed, NoJump, Run, Decided, Uniform, Undecided, TrueLanes, Moves, Apart;
    PartKeeps(n, 0, st, env, Plain(w.depth), k);
    var t := Run(n.kids[0], st, env, Plain(w.depth), k);
    if t.Done? {
      MovesNot(st, t.st);
      PartKeeps(n, 1, t.st, env, Plain(w.depth), k);
      var r := Run(n.kids[1], t.st, env, Plain(w.depth), k);
      if r.Done? {
        MovesNot(st, r.st);
      }
      var st1 := t.st.(mask := Undecided(n.kind.logical, t.st, Part(t.value, 0)));
      UndecidedAreOn(n.kind.logical, t.st, Part(t.value, 0));
      OneSide(t.st, st1);
      PartKeeps(n, 1, st1, env, Plain(w.depth), k);
      var r1 := Run(n.kids[1], st1, env, Plain(w.depth), k);
      if r1.Done? {
        MovesNot(st, r1.st.(mask := t.st.mask));
        StaysApart(st, r1.st.(mask := t.st.mask));
      }
    }
  }

  lemma UndecidedAreOn(op: LogicalOp, st: St, a: seq<int>)
    ensures Undecided(op, st, a) <= st.mask
  {
  }

  // ---------- loops ----------

  /** After an iteration's body: the lanes that broke or returned are off and stay off until the
      loop has ended; all others that started the body go on, also the continued ones. */
  lemma AfterBody(st: St, st1: St)
    requires st.broke == {} && st.continued == {} && Apart(st) && Moves(st, st1)
    ensures NextIteration(st1) == st1.(mask := st.mask - st1.broke - st1.returned, broke := {}, continued := {})
    ensures Apart(NextIteration(st1))
  {
  }

  /** An iteration of a for loop: the step runs with exactly the lanes that started the
      body and have neither broken nor returned. */
  lemma {:induction false} ForIterates(n: Node, st: St, env: Env, d: nat, count: nat, k: nat)
    requires WellFormed(n, env) && n.kind.For? && |n.kids| == 4 && st.broke == {} && st.continued == {} && Apart(st)
    requires count > 0
    ensures
      var w, uniformLoop := Plain(KidDepth(n, 0, d)), UniformLoop(n.kids[1], n.kids[3]);
      var t := Run(n.kids[1], st, env, w, k);
      t.Done? && !Stops(n.kids[1], uniformLoop, t) ==>
        var start := Tested(n.kids[1], uniformLoop, t);
        var r := RunScope(n.kids[3], start, env, Body(n, d), k);
        r.Done? || (r.Jumped? && !r.toBreak) ==>
          var st1 := r.st.(mask := start.mask - r.st.broke - r.st.returned, broke := {}, continued := {});
          var s := Run(n.kids[2], st1, env, w, k);
          RunFor(n, st, env, d, count, k) == if s.Done? then RunFor(n, s.st, env, d, count - 1, k) else s
  {
    assert WellFormed(n.kids[3], env) && NoJump(n.kids[1]);
    hide WellFormed, NoJump, Run, RunScope, UniformLoop, KidDepth, Body, Stops, TrueLanes;
    var w, uniformLoop := Plain(KidDepth(n, 0, d)), UniformLoop(n.kids[1], n.kids[3]);
    PartKeeps(n, 1, st, env, w, k);
    var t := Run(n.kids[1], st, env, w, k);
    if t.Done? {
      var start := Tested(n.kids[1], uniformLoop, t);
      ScopeConserves(n.kids[3], start, env, Body(n, d), k);
      var r := RunScope(n.kids[3], start, env, Body(n, d), k);
      if r.Done? || r.Jumped? {
        AfterBody(start, r.st);
      }
    }
  }

  /** After a loop that was entered in st: all lanes are on that have not returned. */
  ghost predicate LoopEnds(n: Node, st: St, r: Result)
  {
    && !r.Jumped?
    && (r.Done? ==> st.returned <= r.st.returned <= st.returned + st.mask)
    && (r.Done? && NoJump(n) ==> r.st.returned == st.returned)
  }

  /** From one head of a loop to the next. */
  ghost predicate Iterated(n: Node, st: St, st1: St)
  {
    && Idle(st1) && st1.mask <= st.mask && st.returned <= st1.returned <= st.returned + st.mask
    && (NoJump(n) ==> st1.returned == st.returned)
  }

  ghost predicate Idle(st: St)
  {
    st.broke == {} && st.continued == {} && Apart(st)
  }

  lemma LoopGoesOn(n: Node, st: St, st1: St, r: Result)
    requires Iterated(n, st, st1) && LoopEnds(n, st1, r)
    ensures LoopEnds(n, st, r)
  {
    hide NoJump;
  }

  lemma LoopStops(n: Node, st: St, st1: St)
    requires Iterated(n, st, st1)
    ensures LoopEnds(n, st, Done(st1, []))
  {
    hide NoJump;
  }

  /** The test or the step of loop n, run in st1 when the iteration began in st. */
  lemma {:induction false} PartIterates(n: Node, i: nat, st: St, st1: St, uniformLoop: bool, env: Env, w: Place, k: nat)
    requires WellFormed(n, env) && i < |n.kids| && NoJump(n.kids[i]) && Iterated(n, st, st1)
    ensures
      var t := Run(n.kids[i], st1, env, w, k);
      !t.Jumped? && (t.Done? ==>
        && Iterated(n, st, t.st) && Iterated(n, st, Tested(n.kids[i], uniformLoop, t))
        && Idle(t.st) && Idle(Tested(n.kids[i], uniformLoop, t)))
    decreases n, 0, 1
  {
    PartKeeps(n, i, st1, env, w, k);
    hide WellFormed, NoJump, Run, TrueLanes;
  }

  /** The body of loop n, with the step or the test of the next iteration still to come. */
  ghost predicate BodyEnds(n: Node, st: St, r: Result)
  {
    r.Done? || r.Jumped? ==>
      Iterated(n, st, NextIteration(r.st)) && LoopEnds(n, st, Done(r.st, []))
  }

  lemma {:induction false} BodyIterates(n: Node, i: nat, st: St, st1: St, env: Env, w: Place, k: nat)
    requires WellFormed(n, env) && i < |n.kids| && Iterated(n, st, st1)
    ensures BodyEnds(n, st, RunScope(n.kids[i], st1, env, w, k))
    decreases n, 0, 0
  {
    assert WellFormed(n.kids[i], env);
    assert NoJump(n) ==> NoJump(n.kids[i]);
    hide WellFormed, NoJump, RunScope;
    ScopeConserves(n.kids[i], st1, env, w, k);
    var r := RunScope(n.kids[i], st1, env, w, k);
    if r.Done? || r.Jumped? {
      AfterBody(st1, r.st);
      assert r.st.returned <= st1.returned + st1.mask <= st.returned + st.mask;
    }
  }

  lemma IteratedNot(n: Node, st: St)
    requires Idle(st)
    ensures Iterated(n, st, st)
  {
    hide NoJump;
  }

  lemma NotEnded(n: Node, st: St, r: Result)
    requires r.Fault? || r.Unfinished?
    ensures LoopEnds(n, st, r)
  {
  }

  lemma {:induction false} ForConserves(n: Node, st: St, env: Env, d: nat, count: nat, k: nat)
    requires WellFormed(n, env) && n.kind.For? && |n.kids| == 4 && Idle(st)
    ensures LoopEnds(n, st, RunFor(n, st, env, d, count, k))
    decreases n, 1, 2 * count
  {
    assert NoJump(n.kids[1]) && NoJump(n.kids[2]);
    IteratedNot(n, st);
    hide WellFormed, NoJump, Run, RunScope, UniformLoop, KidDepth, Body, Stops, Tested, NextIteration, Iterated, Idle;
    hide LoopEnds;
    var w, uniformLoop := Plain(KidDepth(n, 0, d)), UniformLoop(n.kids[1], n.kids[3]);
    PartIterates(n, 1, st, st, uniformLoop, env, w, k);
    var t := Run(n.kids[1], st, env, w, k);
    if !t.Done? {
      NotEnded(n, st, t);
    } else {
      var start := Tested(n.kids[1], uniformLoop, t);
      LoopStops(n, st, start);
      NotEnded(n, st, Unfinished);
      BodyIterates(n, 3, st, start, env, Body(n, d), k);
      var r := RunScope(n.kids[3], start, env, Body(n, d), k);
      if !r.Done? && !r.Jumped? {
        NotEnded(n, st, r);
      } else if count > 0 {
        StepConserves(n, st, NextIteration(r.st), env, d, count, k);
      }
    }
  }

  /** From the step of an iteration that began in st. */
  lemma {:induction false} StepConserves(n: Node, st: St, next: St, env: Env, d: nat, count: nat, k: nat)
    requires WellFormed(n, env) && n.kind.For? && |n.kids| == 4 && Iterated(n, st, next) && count > 0
    ensures
      var s := Run(n.kids[2], next, env, Plain(KidDepth(n, 0, d)), k);
      LoopEnds(n, st, if !s.Done? then s else RunFor(n, s.st, env, d, count - 1, k))
    decreases n, 1, 2 * count - 1
  {
    assert NoJump(n.kids[2]);
    hide WellFormed, NoJump, Run, RunFor, UniformLoop, KidDepth, Tested, Iterated, Idle, LoopEnds;
    PartIterates(n, 2, st, next, UniformLoop(n.kids[1], n.kids[3]), env, Plain(KidDepth(n, 0, d)), k);
    var s := Run(n.kids[2], next, env, Plain(KidDepth(n, 0, d)), k);
    if s.Done? {
      ForConserves(n, s.st, env, d, count - 1, k);
      LoopGoesOn(n, st, s.st, RunFor(n, s.st, env, d, count - 1, k));
    } else {
      NotEnded(n, st, s);
    }
  }

  lemma LoopConserves(n: Node, st: St, st1: St, r: Result, w: Place, names: set<string>)
    requires Apart(st) && SameLanes(st, st1) && LoopEnds(n, EnterLoop(st1), r)
    ensures Conserves(n, st, FinishLoop(st1, r), w)
    ensures Conserves(n, st, Leave(st, FinishLoop(st1, r), names), w)
  {
    hide NoJump, Outside;
  }

  lemma {:induction false} WholeForConserves(n: Node, st: St, env: Env, w: Place, k: nat)
    requires WellFormed(n, env) && n.kind.For? && |n.kids| == 4 && Apart(st)
    ensures Conserves(n, st, Run(n, st, env, w, k), w)
    decreases n, 1, 2 * k + 1
  {
    assert NoJump(n.kids[0]);
    hide WellFormed, NoJump, RunFor, KidDepth, LeaveScope, Locals;
    PartKeeps(n, 0, st, env, Plain(KidDepth(n, 0, w.depth)), k);
    var r := Run(n.kids[0], st, env, Plain(KidDepth(n, 0, w.depth)), k);
    if r.Done? {
      ForConserves(n, EnterLoop(r.st), env, w.depth, k, k);
      LoopConserves(n, st, r.st, RunFor(n, EnterLoop(r.st), env, w.depth, k, k), w, Locals(n));
    }
  }

  /** An iteration of a do loop: the test runs with the lanes that started the body and
      have neither broken nor returned. */
  lemma {:induction false} DoIterates(n: Node, st: St, env: Env, d: nat, count: nat, k: nat)
    requires WellFormed(n, env) && n.kind.Do? && |n.kids| == 2 && Idle(st)
    ensures
      var r := RunScope(n.kids[0], st, env, Body(n, d), k);
      r.Done? || (r.Jumped? && !r.toBreak) ==>
        var st1 := r.st.(mask := st.mask - r.st.broke - r.st.returned, broke := {}, continued := {});
        var t := Run(n.kids[1], st1, env, Plain(KidDepth(n, 0, d)), k);
        var uniformLoop := UniformLoop(n.kids[1], n.kids[0]);
        RunDo(n, st, env, d, count, k) ==
          if !t.Done? then t
          else if Stops(n.kids[1], uniformLoop, t) then Done(Tested(n.kids[1], uniformLoop, t), [])
          else if count == 0 then Unfinished
          else RunDo(n, Tested(n.kids[1], uniformLoop, t), env, d, count - 1, k)
  {
    assert WellFormed(n.kids[0], env);
    hide WellFormed, Run, RunScope, UniformLoop, KidDepth, Body, Stops, TrueLanes;
    ScopeConserves(n.kids[0], st, env, Body(n, d), k);
    var r := RunScope(n.kids[0], st, env, Body(n, d), k);
    if r.Done? || r.Jumped? {
      AfterBody(st, r.st);
    }
  }

  lemma {:induction false} DoConserves(n: Node, st: St, env: Env, d: nat, count: nat, k: nat)
    requires WellFormed(n, env) && n.kind.Do? && |n.kids| == 2 && Idle(st)
    ensures LoopEnds(n, st, RunDo(n, st, env, d, count, k))
    decreases n, 1, count
  {
    assert NoJump(n.kids[1]);
    IteratedNot(n, st);
    hide WellFormed, NoJump, Run, RunScope, UniformLoop, KidDepth, Body, Stops, Tested, NextIteration, Iterated, Idle;
    hide LoopEnds;
    var w, uniformLoop := Plain(KidDepth(n, 0, d)), UniformLoop(n.kids[1], n.kids[0]);
    NotEnded(n, st, Unfinished);
    BodyIterates(n, 0, st, st, env, Body(n, d), k);
    var r := RunScope(n.kids[0], st, env, Body(n, d), k);
    if !r.Done? && !r.Jumped? {
      NotEnded(n, st, r);
    } else {
      PartIterates(n, 1, st, NextIteration(r.st), uniformLoop, env, w, k);
      var t := Run(n.kids[1], NextIteration(r.st), env, w, k);
      if !t.Done? {
        NotEnded(n, st, t);
      } else {
        var start := Tested(n.kids[1], uniformLoop, t);
        LoopStops(n, st, start);
        if count > 0 {
          DoConserves(n, start, env, d, count - 1, k);
          LoopGoesOn(n, st, start, RunDo(n, start, env, d, count - 1, k));
        }
      }
    }
  }

  lemma {:induction false} WholeDoConserves(n: Node, st: St, env: Env, w: Place, k: nat)
    requires WellFormed(n, env) && n.kind.Do? && |n.kids| == 2 && Apart(st)
    ensures Conserves(n, st, Run(n, st, env, w, k), w)
    decreases n, 1, 2 * k + 1
  {
    hide WellFormed, NoJump, RunDo;
    DoConserves(n, EnterLoop(st), env, w.depth, k, k);
    LoopConserves(n, st, st, RunDo(n, EnterLoop(st), env, w.depth, k, k), w, {});
  }

  /** After a loop exactly the lanes are on that entered it and have not returned, whatever broke
      or continued in it. */
  lemma {:induction false} AfterLoop(n: Node, st: St, env: Env, w: Place, k: nat)
    requires WellFormed(n, env) && (n.kind.For? || n.kind.Do?) && Apart(st)
    ensures
      var r := Run(n, st, env, w, k);
      !r.Jumped? && (r.Done? ==>
        && r.st.mask == st.mask - r.st.returned && r.st.broke == st.broke && r.st.continued == st.continued
        && st.returned <= r.st.returned <= st.returned + st.mask)
  {
    assert JumpsInPlace(n) && !Strict(n.kind);
    hide NoJump, WellFormed, RunFor, RunDo, Outside, Locals, KidDepth;
    if n.kind.For? && |n.kids| == 4 {
      var w1 := Plain(KidDepth(n, 0, w.depth));
      PartKeeps(n, 0, st, env, w1, k);
      var r := Run(n.kids[0], st, env, w1, k);
      if r.Done? {
        ForConserves(n, EnterLoop(r.st), env, w.depth, k, k);
      }
    } else if n.kind.Do? && |n.kids| == 2 {
      DoConserves(n, EnterLoop(st), env, w.depth, k, k);
    }
  }

  // ---------- switch ----------

  /** The lanes of a varying switch that have their label at i or later. */
  ghost function Waiting(n: Node, i: nat, entry: Mask, c: seq<int>): Mask
  {
    if n.kids == [] || Uniform(n.kids[0]) then {}
    else set l: Lane | l in entry && exists j :: i <= j < |n.kids| && Matches(n, n.kids[j], InLane(c, l))
  }

  lemma NextLabel(n: Node, i: nat, entry: Mask, c: seq<int>)
    requires 1 <= i < |n.kids| && DistinctLabels(n)
    ensures Waiting(n, i, entry, c) ==
      Waiting(n, i + 1, entry, c) + if Uniform(n.kids[0]) then {} else Starting(n, i, entry, c)
    ensures !Uniform(n.kids[0]) ==> Waiting(n, i + 1, entry, c) !! Starting(n, i, entry, c)
  {
    hide Uniform;
    forall l, j | i < j < |n.kids| && Matches(n, n.kids[i], InLane(c, l))
      ensures !Matches(n, n.kids[j], InLane(c, l))
    {
      OneLabel(n, i, j, InLane(c, l));
    }
    hide Matches, DistinctLabels;
  }

  /** A value starts at one label at most. */
  lemma OneLabel(n: Node, i: nat, j: nat, v: int)
    requires 1 <= i < j < |n.kids| && DistinctLabels(n) && Matches(n, n.kids[i], v)
    ensures !Matches(n, n.kids[j], v)
  {
  }

  /** The lanes that wait for their label are off. */
  ghost predicate AtLabel(st: St, waiting: Mask)
  {
    Apart(st) && waiting !! (st.mask + st.broke + st.continued + st.returned)
  }

  ghost predicate LabelsEnd(n: Node, st: St, waiting: Mask, r: Result)
  {
    && !r.Jumped?
    && (r.Done? ==> r.st.continued == st.continued && st.returned <= r.st.returned <= st.returned + st.mask + waiting)
    && (r.Done? && NoJump(n) ==> r.st.returned == st.returned)
  }

  lemma {:induction false} LabelsConserve(
    n: Node, i: nat, st: St, entry: Mask, c: seq<int>, started: bool, env: Env, d: nat, k: nat)
    requires WellFormed(n, env) && n.kind.Switch? && n.kids != [] && i > 0
    requires AtLabel(st, Waiting(n, i, entry, c))
    ensures LabelsEnd(n, st, Waiting(n, i, entry, c), RunLabels(n, i, st, entry, c, started, env, d, k))
    decreases n, 1, |n.kids| - i
  {
    hide WellFormed, NoJump, Run, Starting, Matches, Uniform, Waiting, AtLabel, LabelsEnd, Conserves, Labels;
    if i < |n.kids| {
      var now := started || Matches(n, n.kids[i], InLane(c, 0));
      var st1 := if Uniform(n.kids[0]) then st else st.(mask := st.mask + Starting(n, i, entry, c));
      LabelConserves(n, i, st, st1, entry, c, env, d, k);
      LabelsConserve(n, i + 1, st1, entry, c, now, env, d, k);
      var r := Run(n.kids[i], st1, env, Labels(n, d), k);
      if r.Done? {
        LabelsConserve(n, i + 1, r.st, entry, c, now, env, d, k);
      }
    } else {
      NoLabelLeft(n, st, Waiting(n, i, entry, c));
    }
  }

  lemma NoLabelLeft(n: Node, st: St, waiting: Mask)
    ensures LabelsEnd(n, st, waiting, Done(st, []))
  {
    hide NoJump;
  }

  /** The i-th label, and what ends well after it or without it ends well from st. */
  lemma {:induction false} LabelConserves(
    n: Node, i: nat, st: St, st1: St, entry: Mask, c: seq<int>, env: Env, d: nat, k: nat)
    requires WellFormed(n, env) && n.kind.Switch? && 0 < i < |n.kids|
    requires AtLabel(st, Waiting(n, i, entry, c))
    requires st1 == if Uniform(n.kids[0]) then st else st.(mask := st.mask + Starting(n, i, entry, c))
    ensures AtLabel(st1, Waiting(n, i + 1, entry, c))
    ensures forall r :: LabelsEnd(n, st1, Waiting(n, i + 1, entry, c), r) ==>
      LabelsEnd(n, st, Waiting(n, i, entry, c), r)
    ensures
      var r := Run(n.kids[i], st1, env, Labels(n, d), k);
      if r.Done? then
        && AtLabel(r.st, Waiting(n, i + 1, entry, c))
        && forall r1 :: LabelsEnd(n, r.st, Waiting(n, i + 1, entry, c), r1) ==>
             LabelsEnd(n, st, Waiting(n, i, entry, c), r1)
      else
        LabelsEnd(n, st, Waiting(n, i, entry, c), if r.Jumped? && r.toBreak then Done(r.st, []) else r)
    decreases n, 0, 0
  {
    assert WellFormed(n.kids[i], env) && DistinctLabels(n);
    assert !Labels(n, d).canContinue;
    NextLabel(n, i, entry, c);
    hide WellFormed, DistinctLabels, NoJump, Run, Labels, Starting, Matches, Uniform, Waiting, AtLabel, LabelsEnd;
    hide Conserves, Apart;
    var starting := if Uniform(n.kids[0]) then {} else Starting(n, i, entry, c);
    var waiting := Waiting(n, i + 1, entry, c);
    assert st1 == st.(mask := st.mask + starting);
    StartsAtLabel(st, starting, waiting, st1);
    RunConserves(n.kids[i], st1, env, Labels(n, d), k);
    var r := Run(n.kids[i], st1, env, Labels(n, d), k);
    AfterLabel(n, i, st, starting, waiting, r, Labels(n, d));
    forall r1 | LabelsEnd(n, st1, waiting, r1)
      ensures LabelsEnd(n, st, waiting + starting, r1)
    {
      LabelSkipped(n, st, starting, waiting, r1);
    }
    if r.Done? {
      forall r1 | LabelsEnd(n, r.st, waiting, r1)
        ensures LabelsEnd(n, st, waiting + starting, r1)
      {
        LabelsGoOn(n, i, st, starting, waiting, r, Labels(n, d), r1);
      }
    }
  }

  lemma StartsAtLabel(st: St, starting: Mask, waiting: Mask, st1: St)
    requires AtLabel(st, waiting + starting) && waiting !! starting && st1 == st.(mask := st.mask + starting)
    ensures AtLabel(st1, waiting) && Apart(st1)
  {
  }

  lemma AfterLabel(n: Node, i: nat, st: St, starting: Mask, waiting: Mask, r: Result, w: Place)
    requires i < |n.kids| && Conserves(n.kids[i], st.(mask := st.mask + starting), r, w) && !w.canContinue
    requires AtLabel(st.(mask := st.mask + starting), waiting)
    ensures r.Done? ==> AtLabel(r.st, waiting)
    ensures r.Jumped? && r.toBreak ==> LabelsEnd(n, st, waiting + starting, Done(r.st, []))
    ensures !r.Done? && !(r.Jumped? && r.toBreak) ==> LabelsEnd(n, st, waiting + starting, r)
  {
    assert NoJump(n) ==> NoJump(n.kids[i]);
    hide NoJump;
  }

  lemma LabelSkipped(n: Node, st: St, starting: Mask, waiting: Mask, r: Result)
    requires LabelsEnd(n, st.(mask := st.mask + starting), waiting, r)
    ensures LabelsEnd(n, st, waiting + starting, r)
  {
    hide NoJump;
  }

  lemma LabelsGoOn(n: Node, i: nat, st: St, starting: Mask, waiting: Mask, r: Result, w: Place, r1: Result)
    requires i < |n.kids| && Conserves(n.kids[i], st.(mask := st.mask + starting), r, w) && !w.canContinue
    requires r.Done? && LabelsEnd(n, r.st, waiting, r1)
    ensures LabelsEnd(n, st, waiting + starting, r1)
  {
    assert NoJump(n) ==> NoJump(n.kids[i]);
    hide NoJump;
    if r1.Done? {
      assert r1.st.returned <= r.st.returned + r.st.mask + waiting <= st.returned + st.mask + starting + waiting;
    }
  }

  lemma {:induction false} SwitchConserves(n: Node, st: St, env: Env, w: Place, k: nat)
    requires WellFormed(n, env) && n.kind.Switch? && n.kids != [] && Apart(st)
    ensures Conserves(n, st, RunSwitch(n, st, env, w, k), w)
    decreases n, 1, |n.kids| + 1
  {
    assert NoJump(n.kids[0]);
    hide WellFormed, NoJump, Run, RunLabels, LeaveScope, Locals, Uniform, Waiting, AtLabel, Apart, Conserves;
    PartKeeps(n, 0, st, env, Plain(w.depth), k);
    var t := Run(n.kids[0], st, env, Plain(w.depth), k);
    StopsEarly(n, st, t, w);
    if t.Done? {
      var c, uniform := Part(t.value, 0), Uniform(n.kids[0]);
      var st1 := t.st.(broke := {}, mask := if uniform then t.st.mask else {});
      var waiting := Waiting(n, 1, t.st.mask, c);
      WhoWaits(n, t.st.mask, c);
      EntersSwitch(t.st, st1, waiting);
      LabelsConserve(n, 1, st1, t.st.mask, c, !uniform, env, w.depth, k);
      SwitchEnds(n, st, t.st, st1, waiting, RunLabels(n, 1, st1, t.st.mask, c, !uniform, env, w.depth, k), w);
    }
  }

  lemma StopsEarly(n: Node, st: St, t: Result, w: Place)
    requires KeepsLanes(st, t)
    ensures !t.Done? ==> Conserves(n, st, t, w)
  {
    hide NoJump;
  }

  lemma WhoWaits(n: Node, entry: Mask, c: seq<int>)
    requires n.kids != []
    ensures Waiting(n, 1, entry, c) <= if Uniform(n.kids[0]) then {} else entry
  {
    hide Uniform, Matches;
  }

  lemma EntersSwitch(st: St, st1: St, waiting: Mask)
    requires Apart(st) && st1 == st.(broke := {}, mask := st1.mask) && st1.mask + waiting <= st.mask
    requires st1.mask !! waiting
    ensures AtLabel(st1, waiting)
  {
  }

  lemma SwitchEnds(n: Node, st: St, st1: St, st2: St, waiting: Mask, r: Result, w: Place)
    requires Apart(st) && SameLanes(st, st1) && st2 == st1.(broke := {}, mask := st2.mask)
    requires st2.mask + waiting <= st1.mask && LabelsEnd(n, st2, waiting, r)
    ensures Conserves(n, st, Leave(st, FinishSwitch(st1, r), Locals(n)), w)
  {
    hide NoJump, Outside, Locals;
  }
}
