/** What has a uniform type has the same value in every lane, on or off. */
module LaneValues {
  import opened MaskContext
  import opened AllOffSafety
  import opened AllOffRun
  import opened Predication
  import opened LaneMeaning
  import opened LaneRoles

  ghost predicate EvenAt(value: Value, p: nat, g: nat)
  {
    forall a: nat, b: nat :: a < g && b < g ==> InLane(Part(value, p), a) == InLane(Part(value, p), b)
  }

  ghost predicate Even(n: Node, r: Result, g: nat)
  {
    r.Done? ==> forall p: nat :: EvenPart(n, p) ==> EvenAt(r.value, p, g)
  }

  /** The values of the children: uniform ones are even, and constants are known. */
  ghost predicate AllEven(n: Node, from: nat, values: seq<Value>, g: nat)
  {
    && from + |values| == |n.kids|
    && (forall i: nat :: from <= i < |n.kids| && n.kids[i].kind.Const? ==>
          values[i - from] == [Spread(n.kids[i].kind.vals, g)])
    && forall i: nat, p: nat :: from <= i < |n.kids| && EvenPart(n.kids[i], p) ==> EvenAt(values[i - from], p, g)
  }

  lemma {:induction false} RunEven(n: Node, st: St, env: Env, w: Place, k: nat, g: nat)
    requires LaneCode(n, w.depth, g) && |st.vars| == g
    ensures Even(n, Run(n, st, env, w, k), g)
    decreases n, 2, 0
  {
    ShapeOf(n, w.depth, g);
    hide LaneCode, Shaped, EvenPart, EvenAt, RunIf, RunSelect, RunLogical, RunSwitch, RunFor, RunDo, RunKids, Apply;
    hide Leave, FinishLoop;
    if n.kind.Symbol? {
      SymbolEven(n, st, env, w, k, g);
    } else if Strict(n.kind) {
      StrictEven(n, st, env, w, k, g);
    } else if n.kind.Select? {
      SelectEven(n, st, env, w, k, g);
    } else if n.kind.Logical? {
      LogicalEven(n, st, env, w, k, g);
    } else {
      NoValue(n, st, env, w, k, g);
    }
  }

  lemma SymbolEven(n: Node, st: St, env: Env, w: Place, k: nat, g: nat)
    requires Shaped(n, w.depth, g) && n.kind.Symbol? && |st.vars| == g
    ensures Even(n, Run(n, st, env, w, k), g)
  {
    SymbolRuns(n, st, env, w, k);
    hide Run;
    forall p: nat | EvenPart(n, p)
      ensures EvenAt(ReadVar(st, n.kind.variable), p, g)
    {
    }
  }

  /** Statements have no value. */
  lemma NoValue(n: Node, st: St, env: Env, w: Place, k: nat, g: nat)
    requires Shaped(n, w.depth, g)
    requires !Strict(n.kind) && !n.kind.Select? && !n.kind.Logical?
    ensures Even(n, Run(n, st, env, w, k), g)
  {
    var r := Run(n, st, env, w, k);
    assert r.Done? ==> r.value == [] by {
      if n.kind.If? {
        IfHasNoValue(n, st, env, w, k);
      } else if n.kind.Foreach? || n.kind.Call? {
        NotLaneCode(n, w.depth, g);
      } else {
        hide Shaped;
        LoopHasNoValue(n, st, env, w, k);
      }
    }
    hide Run, Shaped;
  }

  lemma ScopeHasNoValue(part: Node, st: St, env: Env, w: Place, k: nat)
    ensures RunScope(part, st, env, w, k).Done? ==> RunScope(part, st, env, w, k).value == []
  {
    hide Run, LeaveScope, Declared;
  }

  lemma SidesHaveNoValue(n: Node, st: St, test: Mask, env: Env, w: Place, k: nat)
    requires n.kind.If? && |n.kids| == 3
    ensures RunSides(n, st, test, env, w, k).Done? ==> RunSides(n, st, test, env, w, k).value == []
  {
    hide RunSide;
  }

  lemma IfHasNoValue(n: Node, st: St, env: Env, w: Place, k: nat)
    requires n.kind.If?
    ensures Run(n, st, env, w, k).Done? ==> Run(n, st, env, w, k).value == []
  {
    if |n.kids| == 3 {
      hide RunScope, RunSides, Uniform, TrueLanes;
      assert Run(n, st, env, w, k) == RunIf(n, st, env, w, k);
      hide Run;
      var t := Run(n.kids[0], st, env, Plain(w.depth), k);
      if t.Done? {
        ScopeHasNoValue(n.kids[if InLane(Part(t.value, 0), 0) != 0 then 1 else 2], t.st, env, w, k);
        SidesHaveNoValue(n, t.st, TrueLanes(t.st, Part(t.value, 0)), env, w, k);
      }
    }
  }

  lemma LoopHasNoValue(n: Node, st: St, env: Env, w: Place, k: nat)
    requires n.kind.For? || n.kind.Do? || n.kind.Switch?
    ensures Run(n, st, env, w, k).Done? ==> Run(n, st, env, w, k).value == []
  {
    hide RunFor, RunDo, RunLabels, LeaveScope, Locals, KidDepth, Uniform;
    if n.kind.Switch? && n.kids != [] {
      assert Run(n, st, env, w, k) == RunSwitch(n, st, env, w, k);
    }
  }

  lemma {:induction false} KidsEven(n: Node, from: nat, st: St, env: Env, w: Place, k: nat, g: nat)
    requires LaneCode(n, w.depth, g) && Strict(n.kind) && |st.vars| == g && from <= |n.kids|
    ensures
      var rs := RunKids(n, from, st, env, w, k);
      if rs.AllDone? then AllEven(n, from, rs.values, g) && |rs.st.vars| == g else !rs.r.Done?
    decreases n, 1, |n.kids| - from
  {
    hide LaneCode, Run, EvenPart, EvenAt;
    if from < |n.kids| {
      StrictDepth(n, from, w.depth);
      KidIsLaneCode(n, from, w.depth, g);
      RunEven(n.kids[from], st, env, w, k, g);
      RunRoles(n.kids[from], st, env, w, k, g);
      var r := Run(n.kids[from], st, env, w, k);
      if n.kids[from].kind.Const? {
        ShapeOf(n.kids[from], w.depth, g);
        ConstantRun(n.kids[from], st, env, w, k, g);
      }
      if r.Done? {
        KidsEven(n, from + 1, r.st, env, w, k, g);
      }
    }
  }

  lemma ConstantRun(n: Node, st: St, env: Env, w: Place, k: nat, g: nat)
    requires Shaped(n, w.depth, g) && n.kind.Const?
    ensures Run(n, st, env, w, k) == Done(st, [Spread(n.kind.vals, |st.vars|)])
  {
    assert RunKids(n, 0, st, env, w, k) == AllDone(st, []);
  }

  lemma {:induction false} StrictEven(n: Node, st: St, env: Env, w: Place, k: nat, g: nat)
    requires LaneCode(n, w.depth, g) && Strict(n.kind) && |st.vars| == g && !n.kind.Symbol?
    ensures Even(n, Run(n, st, env, w, k), g)
    decreases n, 1, |n.kids| + 1
  {
    KidsEven(n, 0, st, env, w, k, g);
    ShapeOf(n, w.depth, g);
    hide LaneCode, RunKids, Apply, EvenPart, Shaped;
    var rs := RunKids(n, 0, st, env, w, k);
    if rs.AllDone? {
      ApplyEven(n, rs.st, rs.values, env, w, g);
    }
  }

  lemma ApplyEven(n: Node, st: St, values: seq<Value>, env: Env, w: Place, g: nat)
    requires Shaped(n, w.depth, g) && Strict(n.kind) && |st.vars| == g && !n.kind.Symbol?
    requires AllEven(n, 0, values, g)
    ensures Even(n, Apply(n, st, values, env, w), g)
  {
    var r := Apply(n, st, values, env, w);
    if Uniform(n) && r.Done? {
      forall p: nat, a: nat, b: nat | a < g && b < g
        ensures InLane(Part(r.value, p), a) == InLane(Part(r.value, p), b)
      {
        UniformKids(n, w.depth, g, values, a, b);
        SameInLanes(n, st, values, env, w, p, a, b, g);
      }
      hide Shaped, AllEven, Uniform, Apply, EvenElement;
      forall p: nat
        ensures EvenAt(r.value, p, g)
      {
      }
    } else if EvenElement(n) {
      ElementEven(n, st, values, env, w, g);
    }
  }

  /** An element that is uniform. */
  lemma ElementEven(n: Node, st: St, values: seq<Value>, env: Env, w: Place, g: nat)
    requires EvenElement(n) && |st.vars| == g && AllEven(n, 0, values, g)
    ensures
      var r := Apply(n, st, values, env, w);
      r.Done? ==> EvenAt(r.value, 0, g)
  {
    var i := n.kids[1].kind.vals[0];
    assert EvenPart(n.kids[0], i);
    assert EvenAt(values[0 - 0], i, g);
    assert n.kids[1].kind.vals == [i] && values[1 - 0] == [Spread(n.kids[1].kind.vals, g)];
    hide AccessOK, EvenPart;
  }

  predicate HasOperands(kind: Kind)
  {
    kind.Unary? || kind.Binary? || kind.Logical? || kind.Assign? || kind.Combine? || kind.Index?
  }

  ghost predicate SameValues(values: seq<Value>, a: nat, b: nat)
  {
    forall i: nat, p: nat :: i < |values| ==> InLane(Part(values[i], p), a) == InLane(Part(values[i], p), b)
  }

  predicate UniformOperands(n: Node)
  {
    forall i :: 0 <= i < |n.kids| ==> Uniform(n.kids[i])
  }

  lemma OperandsAreUniform(n: Node, d: nat, g: nat)
    requires Shaped(n, d, g) && Uniform(n)
    ensures HasOperands(n.kind) ==> UniformOperands(n)
    ensures n.kind.Const? ==> |n.kind.vals| == 1
    ensures n.kind.Member? ==> |n.kids| == 1 && EvenPart(n.kids[0], n.kind.part)
  {
    hide Changes, OneNumber, VarOK, ElementFits, FitsParts, StoreFits;
  }

  lemma UniformKids(n: Node, d: nat, g: nat, values: seq<Value>, a: nat, b: nat)
    requires Shaped(n, d, g) && Strict(n.kind) && Uniform(n) && AllEven(n, 0, values, g) && a < g && b < g
    ensures HasOperands(n.kind) ==> SameValues(values, a, b)
    ensures n.kind.Const? ==> |n.kind.vals| == 1
    ensures n.kind.Member? ==>
        values != [] && InLane(Part(values[0], n.kind.part), a) == InLane(Part(values[0], n.kind.part), b)
  {
    OperandsAreUniform(n, d, g);
    hide Shaped, Uniform;
    if HasOperands(n.kind) {
      forall i: nat, p: nat | i < |values|
        ensures InLane(Part(values[i], p), a) == InLane(Part(values[i], p), b)
      {
        assert EvenPart(n.kids[i], p) && EvenAt(values[i - 0], p, g);
      }
    }
    if n.kind.Member? {
      assert EvenAt(values[0 - 0], n.kind.part, g);
    }
  }

  lemma SameInLanes(n: Node, st: St, values: seq<Value>, env: Env, w: Place, p: nat, a: nat, b: nat, g: nat)
    requires Shaped(n, w.depth, g) && Strict(n.kind) && a < g && b < g && g == |st.vars| && !n.kind.Symbol?
    requires HasOperands(n.kind) ==> SameValues(values, a, b)
    requires n.kind.Const? ==> |n.kind.vals| == 1
    requires n.kind.Member? ==>
        values != [] && InLane(Part(values[0], n.kind.part), a) == InLane(Part(values[0], n.kind.part), b)
    ensures
      var r := Apply(n, st, values, env, w);
      r.Done? ==> InLane(Part(r.value, p), a) == InLane(Part(r.value, p), b)
  {
    hide Shaped, Store, WriteParts, Operate, Element;
    if n.kind.Combine? {
      assert Column(values, a) == Column(values, b);
    } else if n.kind.Index? {
      IndexKind(n, w.depth, g);
      SameElements(n, st, values, p, a, b);
    } else if n.kind.Member? {
      MemberKind(n, w.depth, g);
    } else if n.kind.Assign? {
      SameAssigned(n, st, values, env, p, a, b);
    } else if n.kind.Binary? {
      SameOperated(n, n.kind.binary, st, values, env, p, a, b);
    } else {
      NoEffect(n, w.depth, g);
      if HasOperands(n.kind) {
        SameScalars(values, a, b);
      }
    }
  }

  lemma SameScalars(values: seq<Value>, a: nat, b: nat)
    requires SameValues(values, a, b)
    ensures forall i: nat :: InLane(Scalar(values, i), a) == InLane(Scalar(values, i), b)
  {
  }

  lemma IndexKind(n: Node, d: nat, g: nat)
    requires Shaped(n, d, g) && n.kind.Index?
    ensures n.kind.base.Array?
  {
  }

  lemma MemberKind(n: Node, d: nat, g: nat)
    requires Shaped(n, d, g) && n.kind.Member?
    ensures !n.kind.dereference
  {
  }

  lemma NoEffect(n: Node, d: nat, g: nat)
    requires Shaped(n, d, g)
    ensures !n.kind.PtrDeref? && !n.kind.Call? && !n.kind.New? && !n.kind.Sync? && !n.kind.Alloca?
    ensures !n.kind.Print? && !n.kind.Assert? && !n.kind.Delete?
  {
  }

  lemma SameOperated(n: Node, op: BinaryOp, st: St, values: seq<Value>, env: Env, p: nat, a: nat, b: nat)
    requires SameValues(values, a, b) && a < |st.vars| && b < |st.vars|
    ensures
      var r := Operate(n, op, Scalar(values, 0), Scalar(values, 1), st, env);
      r.Done? ==> InLane(Part(r.value, p), a) == InLane(Part(r.value, p), b)
  {
    hide Divides;
    assert forall i: nat :: InLane(Scalar(values, i), a) == InLane(Scalar(values, i), b);
  }

  lemma SameAssigned(n: Node, st: St, values: seq<Value>, env: Env, p: nat, a: nat, b: nat)
    requires SameValues(values, a, b) && a < |st.vars| && b < |st.vars| && n.kind.Assign?
    ensures
      var r := Assigned(n, n.kind.compound, values, st, env);
      r.Done? ==> InLane(Part(r.value, p), a) == InLane(Part(r.value, p), b)
  {
    hide Operate;
    if n.kind.compound.Some? {
      SameOperated(n, n.kind.compound.value, st, values, env, p, a, b);
    }
  }

  lemma SameElements(n: Node, st: St, values: seq<Value>, p: nat, a: nat, b: nat)
    requires SameValues(values, a, b) && a < |st.vars| && b < |st.vars| && n.kind.Index? && n.kind.base.Array?
    ensures
      var r := Element(st, Uniform(n), n.kind.base.count, if values == [] then [] else values[0], Scalar(values, 1));
      r.Done? ==> InLane(Part(r.value, p), a) == InLane(Part(r.value, p), b)
  {
    hide Uniform, AccessOK;
    assert InLane(Scalar(values, 1), a) == InLane(Scalar(values, 1), b);
  }

  lemma {:induction false} SelectEven(n: Node, st: St, env: Env, w: Place, k: nat, g: nat)
    requires LaneCode(n, w.depth, g) && n.kind.Select? && |st.vars| == g
    ensures Even(n, Run(n, st, env, w, k), g)
    decreases n, 1, 0
  {
    ShapeOf(n, w.depth, g);
    assert |n.kids| == 3 && NoJump(n.kids[0]);
    hide LaneCode, Shaped, Run, NoJump, RunOperands;
    if Uniform(n) {
      assert Uniform(n.kids[0]) && Uniform(n.kids[1]) && Uniform(n.kids[2]);
      PartRoles(n, 0, st, env, w.depth, k, g);
      var t := Run(n.kids[0], st, env, Plain(w.depth), k);
      if t.Done? {
        var i := if InLane(Part(t.value, 0), 0) != 0 then 1 else 2;
        KidIsLaneCode(n, i, w.depth, g);
        RunEven(n.kids[i], t.st, env, Plain(w.depth), k, g);
      }
      SelectIsRun(n, st, env, w, k);
      hide Uniform, EvenAt;
    }
  }

  lemma SelectIsRun(n: Node, st: St, env: Env, w: Place, k: nat)
    requires |n.kids| == (if n.kind.Select? then 3 else 2)
    ensures n.kind.Select? ==> Run(n, st, env, w, k) == RunSelect(n, st, env, w, k)
    ensures n.kind.Logical? && n.kind.shortCircuit ==> Run(n, st, env, w, k) == RunLogical(n, st, env, w, k)
  {
    hide RunSelect, RunLogical;
  }

  lemma {:induction false} LogicalEven(n: Node, st: St, env: Env, w: Place, k: nat, g: nat)
    requires LaneCode(n, w.depth, g) && n.kind.Logical? && n.kind.shortCircuit && |st.vars| == g
    ensures Even(n, Run(n, st, env, w, k), g)
    decreases n, 1, 0
  {
    ShapeOf(n, w.depth, g);
    assert |n.kids| == 2 && NoJump(n.kids[0]);
    hide LaneCode, Shaped, Run, NoJump, RunSecond;
    if Uniform(n) {
      assert Uniform(n.kids[0]) && Uniform(n.kids[1]);
      PartRoles(n, 0, st, env, w.depth, k, g);
      var t := Run(n.kids[0], st, env, Plain(w.depth), k);
      if t.Done? {
        KidIsLaneCode(n, 1, w.depth, g);
        RunEven(n.kids[1], t.st, env, Plain(w.depth), k, g);
        RunRoles(n.kids[1], t.st, env, Plain(w.depth), k, g);
        TruthsEven(Run(n.kids[1], t.st, env, Plain(w.depth), k), g);
      }
      SelectIsRun(n, st, env, w, k);
      hide Uniform;
    }
  }

  lemma TruthsEven(r: Result, g: nat)
    requires r.Done? ==> |r.st.vars| == g && EvenAt(r.value, 0, g)
    ensures r.Done? ==> forall p: nat :: EvenAt(Truths(r).value, p, g)
  {
  }
}
