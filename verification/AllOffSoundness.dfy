/** Soundness of SafeToRunWithMaskAllOff: what code that it finds safe does when no lane
    is on. */
module AllOffSoundness {
  import opened MaskContext
  import opened AllOffSafety
  import opened AllOffRun

  /** What declaring a function safe promises; and no function jumps. */
  ghost predicate EnvOK(env: Env)
  {
    && (forall f: string, st: St, args: seq<Value> ::
          f in env.functions && env.functions[f].safe && st.mask == {} ==>
            env.functions[f].run(st, args).Done? && env.functions[f].run(st, args).st == st)
    && (forall f: string, st: St, args: seq<Value> :: f in env.functions ==> !env.functions[f].run(st, args).Jumped?)
  }

  /** With no lane on, a division by b is one by a constant, or by whatever is found
      past the last lane. */
  predicate DividesAllOff(b: Node, env: Env)
  {
    if Splat(b) then b.kind.vals[0] != 0 else env.stray != 0
  }

  predicate CompoundDivision(kind: Kind)
  {
    kind.Assign? && kind.compound.Some? && kind.compound.value.DivMod?
  }

  /** The one thing that can fault although the analysis lets it pass: a compound
      division. */
  predicate Tame(n: Node, env: Env)
  {
    && (CompoundDivision(n.kind) && |n.kids| == 2 ==> DividesAllOff(n.kids[1], env))
    && forall i :: 0 <= i < |n.kids| ==> Tame(n.kids[i], env)
  }

  /** What the front end guarantees: arity; assignments to lvalues; the init, test and step
      of a loop contain no loop, and test and step no declaration; a switch has labels;
      and callees exist and are as safe as their type says. */
  ghost predicate Formed(n: Node, env: Env)
  {
    && (n.kind.Null? ==> n.kids == []) && (n.kind.If? || n.kind.Select? ==> |n.kids| == 3)
    && (n.kind.For? ==> |n.kids| == 4 && !HasUniformLoop(n.kids[0]) && Header(n.kids[1]) && Header(n.kids[2]))
    && (n.kind.Do? ==> |n.kids| == 2 && Header(n.kids[1]))
    && (n.kind.Switch? ==> n.kids != [] && Header(n.kids[0]))
    && (n.kind.Unary? ==> |n.kids| == 1 && (n.kind.unary.IncDec? ==> LValue(n.kids[0])))
    && (n.kind.Binary? || n.kind.Logical? ==> |n.kids| == 2)
    && (n.kind.Assign? ==> |n.kids| == 2 && LValue(n.kids[0]))
    && (n.kind.Call? && n.kind.func.Some? && n.kind.isSafe ==>
          n.kind.func.value in env.functions && env.functions[n.kind.func.value].safe)
    && forall i :: 0 <= i < |n.kids| ==> Formed(n.kids[i], env)
  }

  predicate Header(n: Node)
  {
    !HasUniformLoop(n) && Declared(n) == {}
  }

  ghost predicate Good(n: Node, env: Env)
  {
    Safe(n) && Tame(n, env) && Formed(n, env) && EnvOK(env)
  }

  /** What the analysis ensures about a node itself. */
  ghost predicate Harmless(n: Node, env: Env)
  {
    match n.kind
    case Index(base) => |n.kids| == 2 && ConstantInBounds(base, n.kids[1])
    case Binary(op) => op.Op?
    case Unary(IncDec(_)) => n.kids != [] && LValue(n.kids[0]) && !Uniform(n)
    case Assign(_) =>
      |n.kids| == 2 && LValue(n.kids[0]) && !Uniform(n)
      && (CompoundDivision(n.kind) ==> DividesAllOff(n.kids[1], env))
    case Member(dereference, _, _) => !dereference
    case Call(func, _, _) => func.Some? ==> func.value in env.functions && env.functions[func.value].safe
    case If(_) => |n.kids| == 3
    case Select(_, _) => |n.kids| == 3
    case Logical(_, _) => |n.kids| == 2
    case For => |n.kids| == 4
    case Do => |n.kids| == 2
    case Switch => n.kids != []
    case kind =>
      !kind.New? && !kind.Delete? && !kind.Assert? && !kind.Print? && !kind.PtrDeref? && !kind.Sync?
      && !kind.Alloca? && !kind.Foreach?
  }

  /** The walk goes into every child of code that it finds safe, but not into those of
      a call without a callee. */
  lemma GoodParts(n: Node, env: Env)
    requires Good(n, env)
    ensures Harmless(n, env)
    ensures !NullCall(n.kind) ==> forall i :: 0 <= i < |n.kids| ==> Good(n.kids[i], env)
  {
    hide EnvOK;
    if n.kind.Assign? || (n.kind.Unary? && n.kind.unary.IncDec?) {
      assert CheckAllOffSafety(n).1;
    }
  }

  // ---------- states that agree ----------

  /** st1 is st but for the variables in names. */
  ghost predicate Agree(st: St, st1: St, names: set<string>)
  {
    && st1 == st.(uni := st1.uni, vars := st1.vars)
    && |st1.vars| == |st.vars|
    && SameOutside(st.uni, st1.uni, names)
    && forall l :: 0 <= l < |st.vars| ==> SameOutside(st.vars[l], st1.vars[l], names)
  }

  ghost predicate SameOutside(a: Memory, b: Memory, names: set<string>)
  {
    forall x: Loc :: x.name !in names ==> (x in a <==> x in b) && (x in a ==> a[x] == b[x])
  }

  lemma AgreeTrans(a: St, b: St, c: St, names: set<string>, more: set<string>, all: set<string>)
    requires Agree(a, b, names) && Agree(b, c, more) && names <= all && more <= all
    ensures Agree(a, c, all)
  {
  }

  lemma AgreeSame(st: St, names: set<string>)
    ensures Agree(st, st, names)
  {
  }

  lemma AgreeMore(a: St, b: St, names: set<string>, all: set<string>)
    requires Agree(a, b, names) && names <= all
    ensures Agree(a, b, all)
  {
  }

  lemma AgreeNone(st: St, st1: St)
    requires Agree(st, st1, {})
    ensures st1 == st
  {
    assert st1.uni == st.uni;
    assert forall l :: 0 <= l < |st.vars| ==> SameOutside(st.vars[l], st1.vars[l], {}) && st1.vars[l] == st.vars[l];
    assert st1.vars == st.vars;
  }

  lemma LeavingDrops(st: St, st1: St, names: set<string>, locals: set<string>)
    requires Agree(st, st1, names)
    ensures Agree(st, LeaveScope(st, st1, locals), names - locals)
  {
    var st2 := LeaveScope(st, st1, locals);
    OutsideDrops(st.uni, st1.uni, names, locals);
    forall l | 0 <= l < |st.vars|
      ensures SameOutside(st.vars[l], st2.vars[l], names - locals)
    {
      OutsideDrops(st.vars[l], st1.vars[l], names, locals);
    }
  }

  lemma OutsideDrops(a: Memory, b: Memory, names: set<string>, locals: set<string>)
    requires SameOutside(a, b, names)
    ensures SameOutside(a, Outside(a, b, locals), names - locals)
  {
  }

  // ---------- stores with no lane on ----------

  lemma WritePartAllOff(st: St, v: Variable, p: nat, c: seq<int>, everywhere: bool)
    ensures Agree(st, WritePart(st, v, p, c, everywhere), {v.name})
    ensures st.mask == {} && !everywhere && !(p < |v.parts| && v.parts[p]) ==>
        WritePart(st, v, p, c, everywhere) == st
  {
    var st1 := WritePart(st, v, p, c, everywhere);
    if st.mask == {} && !everywhere && !(p < |v.parts| && v.parts[p]) {
      assert st1.vars == st.vars;
    }
  }

  lemma {:induction false} WritePartsAllOff(st: St, v: Variable, value: Value, p: nat, everywhere: bool)
    ensures Agree(st, WriteParts(st, v, value, p, everywhere), {v.name})
    ensures st.mask == {} && !everywhere && !HasUniformPart(v) ==> WriteParts(st, v, value, p, everywhere) == st
    decreases |v.parts| - p
  {
    hide WritePart, SameOutside;
    if p < |v.parts| {
      var st1 := WritePart(st, v, p, Part(value, p), everywhere);
      WritePartAllOff(st, v, p, Part(value, p), everywhere);
      WritePartsAllOff(st1, v, value, p + 1, everywhere);
      AgreeTrans(st, st1, WriteParts(st1, v, value, p + 1, everywhere), {v.name}, {v.name}, {v.name});
    } else {
      AgreeSame(st, {v.name});
    }
  }

  lemma {:induction false} ScatterAllOff(st: St, v: Variable, indices: seq<int>, c: seq<int>, l: nat)
    requires st.mask == {}
    ensures Scatter(st, v, indices, c, l) == st
    decreases |st.vars| - l
  {
    if l < |st.vars| {
      ScatterAllOff(st, v, indices, c, l + 1);
    }
  }

  /** With no lane on, a store writes nothing but what spills. */
  lemma StoreAllOff(st: St, lvalue: Node, value: Value, d: nat)
    requires LValue(lvalue) && st.mask == {}
    ensures Agree(st, Store(st, lvalue, value, d), if Spills(lvalue, d) then {Base(lvalue).name} else {})
  {
    hide WritePart, WriteParts, Scatter, SameOutside;
    var v := Base(lvalue);
    AgreeSame(st, {});
    AgreeSame(st, {v.name});
    match lvalue.kind
    case Symbol(_) => WritePartsAllOff(st, v, value, 0, Unmasked(v, d));
    case Member(_, part, _) => WritePartAllOff(st, v, part, Part(value, 0), Unmasked(v, d));
    case Index(_) =>
      if lvalue.kids[1].kind.Const? {
        var vals := lvalue.kids[1].kind.vals;
        if |vals| != 1 {
          ScatterAllOff(st, v, Spread(vals, |st.vars|), Part(value, 0), 0);
        } else if 0 <= vals[0] < |v.parts| {
          WritePartAllOff(st, v, vals[0], Part(value, 0), Unmasked(v, d));
        }
      }
  }

  // ---------- one node with no lane on ----------

  lemma ConstantLoads(st: St, n: Node, values: seq<Value>)
    requires n.kind.Index? && |n.kids| == 2 && ConstantInBounds(n.kind.base, n.kids[1]) && |values| == 2
    requires values[1] == [Spread(n.kids[1].kind.vals, |st.vars|)] && st.mask == {}
    ensures Element(st, Uniform(n), n.kind.base.count, values[0], Scalar(values, 1)).Done?
  {
    assert |n.kids[1].kind.vals| == 1 <==> Uniform(n.kids[1]);
    if Uniform(n) && |st.vars| > 0 {
      assert InLane(Scalar(values, 1), 0) == n.kids[1].kind.vals[0];
    }
  }

  lemma AssignsOwn(n: Node, st: St, values: seq<Value>, env: Env, w: Place)
    requires n.kind.Assign? && |n.kids| == 2 && LValue(n.kids[0]) && !Uniform(n) && st.mask == {}
    requires CompoundDivision(n.kind) ==> DividesAllOff(n.kids[1], env)
    ensures Apply(n, st, values, env, w).Done? && Agree(st, Apply(n, st, values, env, w).st, Own(n, w.depth))
  {
    hide Store, SameOutside, Agree;
    var r := Assigned(n, n.kind.compound, values, st, env);
    assert r.Done?;
    StoreAllOff(st, n.kids[0], r.value, w.depth);
  }

  lemma StepsOwn(n: Node, st: St, values: seq<Value>, env: Env, w: Place)
    requires n.kind.Unary? && n.kind.unary.IncDec? && n.kids != [] && LValue(n.kids[0]) && st.mask == {}
    ensures Apply(n, st, values, env, w).Done? && Agree(st, Apply(n, st, values, env, w).st, Own(n, w.depth))
  {
    hide Store, SameOutside, Agree;
    StoreAllOff(st, n.kids[0], [Stepped(st, Scalar(values, 0), n.kind.unary.delta)], w.depth);
  }

  lemma ReturnsOwn(n: Node, st: St, values: seq<Value>, env: Env, w: Place)
    requires n.kind.Return? && st.mask == {}
    ensures Apply(n, st, values, env, w).Done? && Agree(st, Apply(n, st, values, env, w).st, Own(n, w.depth))
  {
    hide WriteParts, SameOutside;
    var slot, value := n.kind.slot, if values == [] then [] else values[0];
    WritePartsAllOff(st, slot, value, 0, slot.uniform);
    AgreeSame(st, {});
    assert st.returned + {} == st.returned;
  }

  /** With no lane on, a harmless node writes nothing but its own names, or jumps. */
  lemma ApplyAllOff(n: Node, st: St, values: seq<Value>, env: Env, w: Place)
    requires Harmless(n, env) && EnvOK(env) && st.mask == {} && Strict(n.kind) && |values| == |n.kids|
    requires forall i :: 0 <= i < |n.kids| && n.kids[i].kind.Const? ==>
        values[i] == [Spread(n.kids[i].kind.vals, |st.vars|)]
    ensures
      var r := Apply(n, st, values, env, w);
      (r.Done? || (r.Jumped? && w.direct && (!r.toBreak ==> w.canContinue)))
      && (n.kind.Const? ==> r.Done? && r.value == [Spread(n.kind.vals, |st.vars|)])
      && Agree(st, r.st, Own(n, w.depth))
  {
    hide Agree, SameOutside, Store, WriteParts, Operate, Element, Spills;
    AgreeSame(st, Own(n, w.depth));
    match n.kind {
      case Index(_) => ConstantLoads(st, n, values);
      case Binary(_) => DoesNotDivide(n, st, values, env);
      case Unary(op) =>
        if op.IncDec? {
          StepsOwn(n, st, values, env, w);
        }
      case Assign(_) => AssignsOwn(n, st, values, env, w);
      case Return(_) => ReturnsOwn(n, st, values, env, w);
      case Decl(v) => WritePartsAllOff(st, v, if values == [] then [] else values[0], 0, true);
      case Break => assert st.broke + {} == st.broke;
      case Continue => assert st.continued + {} == st.continued;
      case _ =>
    }
  }

  lemma DoesNotDivide(n: Node, st: St, values: seq<Value>, env: Env)
    requires n.kind.Binary? && n.kind.binary.Op?
    ensures Operate(n, n.kind.binary, Scalar(values, 0), Scalar(values, 1), st, env).Done?
  {
  }

  // ---------- whole trees with no lane on ----------

  /** What running n from st with no lane on may come to: no fault, no change but to the
      variables that it may change by its text, and no end at all only because of a
      uniform loop. */
  ghost predicate OffResult(n: Node, st: St, r: Result, w: Place)
  {
    && !r.Fault?
    && (r.Done? || r.Jumped? ==> Agree(st, r.st, Changes(n, w.depth)))
    && (r.Jumped? ==> w.direct && (!r.toBreak ==> w.canContinue))
    && (r.Unfinished? ==> HasUniformLoop(n))
    && (r.Done? && n.kind.Const? ==> r.value == [Spread(n.kind.vals, |st.vars|)])
  }

  /** The same for the children of a strict node from the from-th on. */
  ghost predicate OffResults(n: Node, from: nat, st: St, rs: Results, w: Place)
  {
    match rs
    case AllDone(st1, values) =>
      && Agree(st, st1, KidsChange(n, from, w.depth)) && from + |values| == |n.kids|
      && forall i :: from <= i < |n.kids| && n.kids[i].kind.Const? ==>
           values[i - from] == [Spread(n.kids[i].kind.vals, |st.vars|)]
    case Stopped(r) =>
      && !r.Fault? && !r.Done?
      && (r.Jumped? ==> w.direct && (!r.toBreak ==> w.canContinue) && Agree(st, r.st, KidsChange(n, from, w.depth)))
      && (r.Unfinished? ==> HasUniformLoop(n))
  }

  /** The same for a construct that nothing jumps out of and that changes these names. */
  ghost predicate OffEnd(n: Node, st: St, r: Result, names: set<string>)
  {
    && !r.Fault? && !r.Jumped?
    && (r.Done? ==> Agree(st, r.st, names))
    && (r.Unfinished? ==> HasUniformLoop(n))
  }

  lemma StrictKids(n: Node, d: nat)
    requires Strict(n.kind) || n.kind.Logical? || n.kind.Select?
    ensures Locals(n) == {}
    ensures forall i: nat :: i < |n.kids| ==> KidDepth(n, i, d) == d && KidLocals(n, i) == {}
    ensures forall i: nat :: i < |n.kids| ==> KidChanges(n, i, d) == Changes(n.kids[i], d)
  {
    forall i: nat | i < |n.kids|
      ensures KidChanges(n, i, d) == Changes(n.kids[i], d)
    {
      assert Changes(n.kids[i], d) - {} == Changes(n.kids[i], d);
    }
  }

  lemma KidHasUniformLoop(n: Node)
    ensures forall i :: 0 <= i < |n.kids| && HasUniformLoop(n.kids[i]) ==> HasUniformLoop(n)
  {
  }

  /** What a child may change is among what the children change, and so among what the
      node changes unless its scope ends there. */
  lemma KidChangesAll(n: Node, d: nat)
    ensures forall i: nat :: i < |n.kids| ==> KidChanges(n, i, d) - Locals(n) <= Changes(n, d)
    ensures forall i: nat :: i < |n.kids| ==> KidChanges(n, i, d) <= KidsChange(n, 0, d)
    ensures forall i: nat :: 1 <= i < |n.kids| ==> KidChanges(n, i, d) <= KidsChange(n, 1, d)
    ensures KidsChange(n, 1, d) <= KidsChange(n, 0, d) && KidsChange(n, 0, d) - Locals(n) <= Changes(n, d)
  {
    forall i: nat | i < |n.kids|
      ensures KidChanges(n, i, d) <= KidsChange(n, 0, d)
      ensures i > 0 ==> KidChanges(n, i, d) <= KidsChange(n, 1, d)
    {
      KidChangesIn(n, 0, i, d);
      if i > 0 {
        KidChangesIn(n, 1, i, d);
      }
    }
  }

  lemma {:induction false} KidsAllOff(n: Node, from: nat, st: St, env: Env, w: Place, k: nat)
    requires st.mask == {} && from <= |n.kids| && (Strict(n.kind) || n.kind.Logical? || n.kind.Select?)
    requires forall i :: 0 <= i < |n.kids| ==> Good(n.kids[i], env)
    ensures OffResults(n, from, st, RunKids(n, from, st, env, w, k), w)
    decreases n, 1, |n.kids| - from
  {
    hide Good, Run, Spread, SameOutside, Agree, HasUniformLoop, Changes;
    if from == |n.kids| {
      AgreeSame(st, KidsChange(n, from, w.depth));
    } else {
      StrictKids(n, w.depth);
      KidHasUniformLoop(n);
      RunAllOff(n.kids[from], st, env, w, k);
      var r := Run(n.kids[from], st, env, w, k);
      if r.Done? {
        AgreeMask(st, r.st, Changes(n.kids[from], w.depth));
        KidsAllOff(n, from + 1, r.st, env, w, k);
        NextKid(n, from, st, r, RunKids(n, from + 1, r.st, env, w, k), w);
      } else if r.Jumped? {
        AgreeMore(st, r.st, Changes(n.kids[from], w.depth), KidsChange(n, from, w.depth));
      }
    }
  }

  lemma AgreeMask(st: St, st1: St, names: set<string>)
    requires Agree(st, st1, names)
    ensures st1 == st.(uni := st1.uni, vars := st1.vars) && |st1.vars| == |st.vars|
  {
  }

  lemma NextKid(n: Node, from: nat, st: St, r: Result, rs: Results, w: Place)
    requires from < |n.kids| && r.Done? && OffResult(n.kids[from], st, r, w)
    requires OffResults(n, from + 1, r.st, rs, w) && |r.st.vars| == |st.vars|
    requires KidChanges(n, from, w.depth) == Changes(n.kids[from], w.depth)
    ensures OffResults(n, from, st, if rs.Stopped? then rs else AllDone(rs.st, [r.value] + rs.values), w)
  {
    hide Spread, SameOutside, Agree, HasUniformLoop, Changes;
    var kid, rest := Changes(n.kids[from], w.depth), KidsChange(n, from + 1, w.depth);
    var all := KidsChange(n, from, w.depth);
    assert all == kid + rest;
    if rs.AllDone? {
      AgreeTrans(st, r.st, rs.st, kid, rest, all);
    } else if rs.r.Jumped? {
      AgreeTrans(st, r.st, rs.r.st, kid, rest, all);
    }
  }

  lemma {:induction false} StrictAllOff(n: Node, st: St, env: Env, w: Place, k: nat)
    requires Good(n, env) && st.mask == {} && Strict(n.kind)
    ensures OffResult(n, st, Run(n, st, env, w, k), w)
    decreases n, 1, |n.kids| + 1
  {
    GoodParts(n, env);
    assert EnvOK(env);
    hide Good, Harmless, EnvOK, SameOutside, Apply, Spread, Agree, HasUniformLoop, KidsChange, Own;
    StrictKids(n, w.depth);
    KidsAllOff(n, 0, st, env, w, k);
    var rs := RunKids(n, 0, st, env, w, k);
    var kids, own, all := KidsChange(n, 0, w.depth), Own(n, w.depth), Changes(n, w.depth);
    assert all == own + kids;
    if rs.AllDone? {
      AgreeMask(st, rs.st, kids);
      ApplyAllOff(n, rs.st, rs.values, env, w);
      AgreeTrans(st, rs.st, Apply(n, rs.st, rs.values, env, w).st, kids, own, all);
    } else if rs.r.Jumped? {
      AgreeMore(st, rs.r.st, kids, all);
    }
  }

  /** A scope with no lane on. */
  lemma {:induction false} ScopeAllOff(part: Node, st: St, env: Env, w: Place, k: nat)
    requires Good(part, env) && st.mask == {}
    ensures
      var r := RunScope(part, st, env, w, k);
      && !r.Fault?
      && (r.Done? ==> r.value == [])
      && (r.Done? || r.Jumped? ==> Agree(st, r.st, Changes(part, w.depth) - Declared(part)))
      && (r.Jumped? ==> w.direct && (!r.toBreak ==> w.canContinue))
      && (r.Unfinished? ==> HasUniformLoop(part))
    decreases part, 3, 0
  {
    RunAllOff(part, st, env, w, k);
    hide Good, Run, LeaveScope, Agree, Changes, Declared;
    var r := Run(part, st, env, w, k);
    if r.Done? || r.Jumped? {
      LeavingDrops(st, r.st, Changes(part, w.depth), Declared(part));
    }
  }

  /** Which names an if, a loop or a switch changes in which of its children. */
  lemma IfChanges(n: Node, d: nat)
    requires n.kind.If? && |n.kids| == 3
    ensures Changes(n.kids[0], d) <= Changes(n, d)
    ensures forall i :: 1 <= i <= 2 ==>
        Changes(n.kids[i], if Uniform(n.kids[0]) then d else d + 1) - Declared(n.kids[i]) <= Changes(n, d)
  {
    hide Changes, Declared, Uniform;
    KidChangesAll(n, d);
    assert Locals(n) == {};
    assert Changes(n.kids[0], d) - {} == KidChanges(n, 0, d) == KidChanges(n, 0, d) - {};
    forall i | 1 <= i <= 2
      ensures Changes(n.kids[i], if Uniform(n.kids[0]) then d else d + 1) - Declared(n.kids[i]) <= Changes(n, d)
    {
      assert KidChanges(n, i, d) - {} <= Changes(n, d);
    }
  }

  lemma {:induction false} IfAllOff(n: Node, st: St, env: Env, w: Place, k: nat)
    requires Good(n, env) && st.mask == {} && n.kind.If? && |n.kids| == 3
    ensures OffResult(n, st, RunIf(n, st, env, w, k), w)
    decreases n, 1, 1
  {
    GoodParts(n, env);
    hide Good, Harmless, Run, SameOutside, Declared, Uniform, HasUniformLoop, Agree, Changes, RunScope, RunSides;
    hide TrueLanes, Spread;
    KidHasUniformLoop(n);
    IfChanges(n, w.depth);
    RunAllOff(n.kids[0], st, env, Plain(w.depth), k);
    var t := Run(n.kids[0], st, env, Plain(w.depth), k);
    if t.Done? {
      AgreeMask(st, t.st, Changes(n.kids[0], w.depth));
      AgreeMore(st, t.st, Changes(n.kids[0], w.depth), Changes(n, w.depth));
      if Uniform(n.kids[0]) {
        UniformSideAllOff(n, if InLane(Part(t.value, 0), 0) != 0 then 1 else 2, st, t.st, env, w, k);
      } else {
        var test := TrueLanes(t.st, Part(t.value, 0));
        SidesAllOff(n, t.st, test, env, w, k);
        ThenEnds(n, st, t.st, RunSides(n, t.st, test, env, w, k), Changes(n, w.depth));
      }
    }
  }

  lemma {:induction false} UniformSideAllOff(n: Node, i: nat, st: St, st1: St, env: Env, w: Place, k: nat)
    requires n.kind.If? && |n.kids| == 3 && 1 <= i <= 2 && Uniform(n.kids[0]) && Good(n.kids[i], env)
    requires Agree(st, st1, Changes(n, w.depth)) && st1.mask == {}
    ensures
      var r := RunScope(n.kids[i], st1, env, w, k);
      && !r.Fault? && (r.Unfinished? ==> HasUniformLoop(n))
      && (r.Done? || r.Jumped? ==> Agree(st, r.st, Changes(n, w.depth)))
      && (r.Jumped? ==> w.direct && (!r.toBreak ==> w.canContinue))
    decreases n, 0, 0
  {
    hide Good, Run, SameOutside, Declared, Uniform, HasUniformLoop, Agree, Changes, RunScope;
    KidHasUniformLoop(n);
    IfChanges(n, w.depth);
    ScopeAllOff(n.kids[i], st1, env, w, k);
    var r := RunScope(n.kids[i], st1, env, w, k);
    if r.Done? || r.Jumped? {
      AgreeTrans(st, st1, r.st, Changes(n, w.depth), Changes(n.kids[i], w.depth) - Declared(n.kids[i]),
                 Changes(n, w.depth));
    }
  }

  /** Both sides of a varying if, when no lane takes either. */
  lemma {:induction false} SidesAllOff(n: Node, st: St, test: Mask, env: Env, w: Place, k: nat)
    requires n.kind.If? && |n.kids| == 3 && st.mask == {} && !Uniform(n.kids[0])
    requires Good(n.kids[1], env) && Good(n.kids[2], env)
    ensures OffEnd(n, st, RunSides(n, st, test, env, w, k), Changes(n, w.depth))
    decreases n, 1, 0
  {
    hide Good, HasUniformLoop, Changes, SameOutside, Agree, RunSide, Uniform;
    var all, w1 := Changes(n, w.depth), Place(false, w.depth + 1, w.canContinue);
    assert st.mask * test == {} && st.mask - test == {} && st.(mask := {}) == st;
    SideAllOff(n, 1, st, n.kind.branch, env, w1, k);
    var r := RunSide(n.kids[1], st, n.kind.branch, env, w1, k);
    if r.Done? {
      assert r.st.(mask := {}) == r.st;
      SideAllOff(n, 2, r.st, n.kind.branch, env, w1, k);
      var r2 := RunSide(n.kids[2], r.st, n.kind.branch, env, w1, k);
      if r2.Done? {
        AgreeTrans(st, r.st, r2.st, all, all, all);
        assert {} - r2.st.returned - r2.st.broke - r2.st.continued == {} && r2.st.(mask := {}) == r2.st;
      }
    }
  }

  lemma {:induction false} SideAllOff(n: Node, i: nat, st: St, branch: bool, env: Env, w1: Place, k: nat)
    requires n.kind.If? && |n.kids| == 3 && 1 <= i <= 2 && st.mask == {} && !Uniform(n.kids[0])
    requires Good(n.kids[i], env) && !w1.direct && w1.depth > 0
    ensures
      var r := RunSide(n.kids[i], st, branch, env, w1, k);
      && OffEnd(n, st, r, Changes(n, w1.depth - 1))
      && (r.Done? ==> r.st == st.(uni := r.st.uni, vars := r.st.vars))
    decreases n, 0, 0
  {
    hide Good, HasUniformLoop, Changes, SameOutside, Agree, RunScope, Declared, Uniform;
    KidHasUniformLoop(n);
    IfChanges(n, w1.depth - 1);
    var all := Changes(n, w1.depth - 1);
    AgreeSame(st, all);
    ScopeAllOff(n.kids[i], st, env, w1, k);
    var r := RunScope(n.kids[i], st, env, w1, k);
    if r.Done? {
      AgreeMask(st, r.st, Changes(n.kids[i], w1.depth) - Declared(n.kids[i]));
      AgreeMore(st, r.st, Changes(n.kids[i], w1.depth) - Declared(n.kids[i]), all);
    }
  }

  /** An operand of a select or of a logical operator. */
  lemma {:induction false} OperandAllOff(n: Node, i: nat, st: St, env: Env, w: Place, k: nat)
    requires Good(n, env) && st.mask == {} && (n.kind.Logical? || n.kind.Select?) && i < |n.kids|
    ensures
      var r := Run(n.kids[i], st, env, Plain(w.depth), k);
      && !r.Fault? && !r.Jumped? && (r.Unfinished? ==> HasUniformLoop(n))
      && (r.Done? ==> Agree(st, r.st, Changes(n, w.depth)) && r.st.mask == {} && |r.st.vars| == |st.vars|)
    decreases n, 0, 0
  {
    GoodParts(n, env);
    hide Good, Harmless, Run, HasUniformLoop, SameOutside;
    KidHasUniformLoop(n);
    StrictKids(n, w.depth);
    KidChangesAll(n, w.depth);
    RunAllOff(n.kids[i], st, env, Plain(w.depth), k);
    hide Changes, Agree, Spread;
    var r := Run(n.kids[i], st, env, Plain(w.depth), k);
    if r.Done? {
      assert KidChanges(n, i, w.depth) - {} <= Changes(n, w.depth);
      AgreeMask(st, r.st, Changes(n.kids[i], w.depth));
      AgreeMore(st, r.st, Changes(n.kids[i], w.depth), Changes(n, w.depth));
    }
  }

  lemma {:induction false} SelectAllOff(n: Node, st: St, env: Env, w: Place, k: nat)
    requires Good(n, env) && st.mask == {} && n.kind.Select? && |n.kids| == 3
    ensures OffResult(n, st, RunSelect(n, st, env, w, k), w)
    decreases n, 1, 1
  {
    hide Good, Run, SameOutside, Uniform, Spread, HasUniformLoop, Agree, Changes, RunOperands, TrueLanes;
    var all := Changes(n, w.depth);
    OperandAllOff(n, 0, st, env, w, k);
    var t := Run(n.kids[0], st, env, Plain(w.depth), k);
    if t.Done? {
      if Uniform(n.kids[0]) {
        var i := if InLane(Part(t.value, 0), 0) != 0 then 1 else 2;
        OperandAllOff(n, i, t.st, env, w, k);
        ThenEnds(n, st, t.st, Run(n.kids[i], t.st, env, Plain(w.depth), k), all);
      } else {
        var test := TrueLanes(t.st, Part(t.value, 0));
        OperandsAllOff(n, t.st, test, env, w, k);
        ThenEnds(n, st, t.st, RunOperands(n, t.st, test, env, w.depth, k), all);
      }
    }
  }

  lemma {:induction false} OperandsAllOff(n: Node, st: St, test: Mask, env: Env, w: Place, k: nat)
    requires Good(n, env) && st.mask == {} && n.kind.Select? && |n.kids| == 3
    ensures OffEnd(n, st, RunOperands(n, st, test, env, w.depth, k), Changes(n, w.depth))
    decreases n, 1, 0
  {
    hide Good, Run, SameOutside, HasUniformLoop, Agree, Changes, Selected;
    var all := Changes(n, w.depth);
    assert {} * test == {} && {} - test == {} && st.(mask := {}) == st;
    OperandAllOff(n, 1, st, env, w, k);
    AgreeSame(st, all);
    var r := RunOperand(n.kids[1], st, n.kind.shortCircuit1, env, w.depth, k);
    if r.Done? {
      assert r.st.(mask := {}) == r.st;
      OperandAllOff(n, 2, r.st, env, w, k);
      AgreeSame(r.st, all);
      var r2 := RunOperand(n.kids[2], r.st, n.kind.shortCircuit2, env, w.depth, k);
      if r2.Done? {
        assert r2.st.(mask := {}) == r2.st;
        AgreeTrans(st, r.st, r2.st, all, all, all);
      }
    }
  }

  lemma {:induction false} LogicalAllOff(n: Node, st: St, env: Env, w: Place, k: nat)
    requires Good(n, env) && st.mask == {} && n.kind.Logical? && |n.kids| == 2
    ensures OffResult(n, st, RunLogical(n, st, env, w, k), w)
    decreases n, 1, 0
  {
    hide Good, Run, SameOutside, Uniform, Spread, HasUniformLoop, Agree, Changes, Decided, TrueLanes;
    var all := Changes(n, w.depth);
    OperandAllOff(n, 0, st, env, w, k);
    var t := Run(n.kids[0], st, env, Plain(w.depth), k);
    if t.Done? {
      OperandAllOff(n, 1, t.st, env, w, k);
      var r := Run(n.kids[1], t.st, env, Plain(w.depth), k);
      if r.Done? {
        AgreeTrans(st, t.st, r.st, all, all, all);
      }
      assert Undecided(n.kind.logical, t.st, Part(t.value, 0)) == {};
    }
  }

  // ---------- loops with no lane on ----------

  lemma LoopParts(n: Node, env: Env)
    requires Good(n, env) && (n.kind.For? || n.kind.Do? || n.kind.Switch?)
    ensures forall i :: 0 <= i < |n.kids| ==> Good(n.kids[i], env)
    ensures n.kind.For? ==>
        |n.kids| == 4 && !HasUniformLoop(n.kids[0]) && Header(n.kids[1]) && Header(n.kids[2])
    ensures n.kind.Do? ==> |n.kids| == 2 && Header(n.kids[1])
    ensures n.kind.Switch? ==> n.kids != [] && Header(n.kids[0])
  {
    GoodParts(n, env);
  }

  /** The init of a for loop, or the value of a switch. */
  lemma FirstPart(n: Node, env: Env, d: nat)
    requires Good(n, env) && (n.kind.For? || n.kind.Switch?)
    ensures n.kids != [] && Good(n.kids[0], env) && !HasUniformLoop(n.kids[0])
    ensures KidChanges(n, 0, d) <= KidsChange(n, 0, d) && KidsChange(n, 1, d) <= KidsChange(n, 0, d)
    ensures KidsChange(n, 0, d) - Locals(n) <= Changes(n, d)
  {
    LoopParts(n, env);
    KidChangesAll(n, d);
  }

  lemma LoopStateAllOff(st: St)
    requires st.mask == {} && st.broke == {} && st.continued == {}
    ensures NextIteration(st) == st
  {
    assert st.mask + st.continued == {};
  }

  lemma TestedAllOff(test: Node, uniformLoop: bool, t: Result)
    requires t.Done? && t.st.mask == {}
    ensures Tested(test, uniformLoop, t) == t.st
    ensures !uniformLoop ==> Stops(test, uniformLoop, t)
  {
    assert {} * TrueLanes(t.st, TestValue(test, t)) == {};
  }

  /** The init, test or step of a loop. */
  lemma {:induction false} HeaderAllOff(n: Node, i: nat, st: St, env: Env, d: nat, k: nat)
    requires i < |n.kids| && Good(n.kids[i], env) && st.mask == {} && !HasUniformLoop(n.kids[i])
    requires (n.kind.For? && i < 3) || (n.kind.Do? && i == 1) || (n.kind.Switch? && i == 0)
    ensures
      var r := Run(n.kids[i], st, env, Plain(KidDepth(n, i, d)), k);
      r.Done? && Agree(st, r.st, KidChanges(n, i, d)) && r.st == st.(uni := r.st.uni, vars := r.st.vars)
    decreases n, 0, 0
  {
    RunAllOff(n.kids[i], st, env, Plain(KidDepth(n, i, d)), k);
    hide Good, Run, Agree, Changes, HasUniformLoop, KidDepth;
    var r := Run(n.kids[i], st, env, Plain(KidDepth(n, i, d)), k);
    assert Changes(n.kids[i], KidDepth(n, i, d)) - {} == Changes(n.kids[i], KidDepth(n, i, d));
    AgreeMask(st, r.st, Changes(n.kids[i], KidDepth(n, i, d)));
  }

  lemma BodyNames(n: Node, i: nat, d: nat)
    requires i < |n.kids| && ((n.kind.For? && i == 3) || (n.kind.Do? && i == 0))
    ensures Changes(n.kids[i], Body(n, d).depth) - Declared(n.kids[i]) == KidChanges(n, i, d)
    ensures HasUniformLoop(n.kids[i]) ==> HasUniformLoop(n)
  {
    hide Changes, Declared;
  }

  /** The body of a loop. */
  lemma {:induction false} BodyAllOff(n: Node, i: nat, st: St, env: Env, d: nat, k: nat)
    requires i < |n.kids| && Good(n.kids[i], env) && st.mask == {}
    requires (n.kind.For? && i == 3) || (n.kind.Do? && i == 0)
    ensures
      var r := RunScope(n.kids[i], st, env, Body(n, d), k);
      && !r.Fault? && (r.Unfinished? ==> HasUniformLoop(n)) && (r.Done? ==> r.value == [])
      && (r.Done? || r.Jumped? ==>
            Agree(st, r.st, KidChanges(n, i, d)) && r.st == st.(uni := r.st.uni, vars := r.st.vars))
    decreases n, 0, 0
  {
    hide Good, RunScope, Agree, Changes, HasUniformLoop, Body, KidChanges, Declared;
    ScopeAllOff(n.kids[i], st, env, Body(n, d), k);
    BodyNames(n, i, d);
    var r := RunScope(n.kids[i], st, env, Body(n, d), k);
    if r.Done? || r.Jumped? {
      AgreeMask(st, r.st, KidChanges(n, i, d));
    }
  }

  /** A loop from its test on. */
  lemma {:induction false} ForAllOff(n: Node, st: St, env: Env, d: nat, count: nat, k: nat)
    requires Good(n, env) && n.kind.For? && |n.kids| == 4
    requires st.mask == {} && st.broke == {} && st.continued == {}
    ensures OffEnd(n, st, RunFor(n, st, env, d, count, k), KidsChange(n, 1, d))
    decreases n, 1, count
  {
    hide Good, RunScope, Run, Stops, Tested, HasUniformLoop, UniformLoop, Agree, KidsChange, KidChanges, Header, Body;
    LoopParts(n, env);
    NoUniformHeader(n);
    KidChangesAll(n, d);
    ForDepth(n, d);
    HeaderAllOff(n, 1, st, env, d, k);
    var names, t := KidsChange(n, 1, d), Run(n.kids[1], st, env, Plain(KidDepth(n, 0, d)), k);
    var uniformLoop := UniformLoop(n.kids[1], n.kids[3]);
    TestedAllOff(n.kids[1], uniformLoop, t);
    AgreeMore(st, t.st, KidChanges(n, 1, d), names);
    if !Stops(n.kids[1], uniformLoop, t) {
      LoopIsUniform(n);
      if count > 0 {
        BodyAllOff(n, 3, t.st, env, d, k);
        var r := RunScope(n.kids[3], t.st, env, Body(n, d), k);
        if r.Done? || r.Jumped? {
          AgreeTrans(st, t.st, r.st, names, KidChanges(n, 3, d), names);
          LoopStateAllOff(r.st);
          HeaderAllOff(n, 2, r.st, env, d, k);
          var r2 := Run(n.kids[2], r.st, env, Plain(KidDepth(n, 0, d)), k);
          AgreeTrans(st, r.st, r2.st, names, KidChanges(n, 2, d), names);
          ForAllOff(n, r2.st, env, d, count - 1, k);
          ThenEnds(n, st, r2.st, RunFor(n, r2.st, env, d, count - 1, k), names);
        }
      }
    }
  }

  lemma ThenEnds(n: Node, st: St, st1: St, r: Result, names: set<string>)
    requires Agree(st, st1, names) && OffEnd(n, st1, r, names)
    ensures OffEnd(n, st, r, names)
  {
    hide HasUniformLoop, SameOutside;
    if r.Done? {
      AgreeTrans(st, st1, r.st, names, names, names);
    }
  }

  lemma NoUniformHeader(n: Node)
    ensures forall i :: 0 <= i < |n.kids| && Header(n.kids[i]) ==> !HasUniformLoop(n.kids[i])
  {
  }

  lemma ForDepth(n: Node, d: nat)
    requires n.kind.For? || n.kind.Do?
    ensures forall i: nat :: KidDepth(n, i, d) == KidDepth(n, 0, d)
  {
  }

  /** A loop that goes on although no lane is on has uniform control flow. */
  lemma LoopIsUniform(n: Node)
    requires (n.kind.For? && |n.kids| == 4) || (n.kind.Do? && |n.kids| == 2)
    ensures
      UniformLoop(n.kids[1], if n.kind.For? then n.kids[3] else n.kids[0]) ==> HasUniformLoop(n)
  {
  }

  lemma {:induction false} DoAllOff(n: Node, st: St, env: Env, d: nat, count: nat, k: nat)
    requires Good(n, env) && n.kind.Do? && |n.kids| == 2
    requires st.mask == {} && st.broke == {} && st.continued == {}
    ensures OffEnd(n, st, RunDo(n, st, env, d, count, k), KidsChange(n, 0, d))
    decreases n, 1, count
  {
    hide Good, RunScope, Run, Stops, Tested, HasUniformLoop, UniformLoop, Agree, KidsChange, KidChanges, Header, Body;
    LoopParts(n, env);
    NoUniformHeader(n);
    KidChangesAll(n, d);
    ForDepth(n, d);
    var names := KidsChange(n, 0, d);
    BodyAllOff(n, 0, st, env, d, k);
    var r := RunScope(n.kids[0], st, env, Body(n, d), k);
    if r.Done? || r.Jumped? {
      AgreeMore(st, r.st, KidChanges(n, 0, d), names);
      LoopStateAllOff(r.st);
      HeaderAllOff(n, 1, r.st, env, d, k);
      var t := Run(n.kids[1], r.st, env, Plain(KidDepth(n, 0, d)), k);
      AgreeTrans(st, r.st, t.st, names, KidChanges(n, 1, d), names);
      var uniformLoop := UniformLoop(n.kids[1], n.kids[0]);
      TestedAllOff(n.kids[1], uniformLoop, t);
      if !Stops(n.kids[1], uniformLoop, t) {
        LoopIsUniform(n);
        if count > 0 {
          DoAllOff(n, t.st, env, d, count - 1, k);
          ThenEnds(n, st, t.st, RunDo(n, t.st, env, d, count - 1, k), names);
        }
      }
    }
  }

  /** The end of a loop or switch that ran with no lane on. */
  lemma EndsAllOff(st: St, st1: St, names: set<string>, all: set<string>)
    requires st.mask == {} && Agree(st, st1.(broke := st.broke, continued := st.continued), names) && names <= all
    ensures Agree(st, FinishLoop(st, Done(st1, [])).st, all)
    ensures st1.continued == st.continued ==> Agree(st, FinishSwitch(st, Done(st1, [])).st, all)
  {
    assert {} - st1.returned == {};
  }

  lemma {:induction false} WholeForAllOff(n: Node, st: St, env: Env, w: Place, k: nat)
    requires Good(n, env) && st.mask == {} && n.kind.For?
    ensures OffResult(n, st, Run(n, st, env, w, k), w)
    decreases n, 1, k + 1
  {
    hide Good, SameOutside, RunFor, HasUniformLoop, KidsChange, KidChanges, LeaveScope, Agree, Changes, Locals;
    hide KidDepth, Apply, RunKids;
    assert |n.kids| == 4 by { LoopParts(n, env); }
    FirstPart(n, env, w.depth);
    var names, inner := KidsChange(n, 0, w.depth), KidsChange(n, 1, w.depth);
    HeaderAllOff(n, 0, st, env, w.depth, k);
    var r := Run(n.kids[0], st, env, Plain(KidDepth(n, 0, w.depth)), k);
    ForAllOff(n, EnterLoop(r.st), env, w.depth, k, k);
    var r1 := RunFor(n, EnterLoop(r.st), env, w.depth, k, k);
    if r1.Done? {
      AgreeInLoop(r.st, r1.st, inner);
      AgreeTrans(st, r.st, r1.st.(broke := st.broke, continued := st.continued),
                 KidChanges(n, 0, w.depth), inner, names);
      LeavesAllOff(st, r1.st, names, Locals(n), Changes(n, w.depth));
    }
  }

  lemma {:induction false} WholeDoAllOff(n: Node, st: St, env: Env, w: Place, k: nat)
    requires Good(n, env) && st.mask == {} && n.kind.Do?
    ensures OffResult(n, st, Run(n, st, env, w, k), w)
    decreases n, 1, k + 1
  {
    LoopParts(n, env);
    KidChangesAll(n, w.depth);
    hide Good, SameOutside, RunDo, HasUniformLoop, KidsChange, KidChanges, Header, KidDepth, Agree, Changes;
    hide Apply, RunKids;
    var names := KidsChange(n, 0, w.depth);
    assert names - Locals(n) == names;
    DoAllOff(n, EnterLoop(st), env, w.depth, k, k);
    var r1 := RunDo(n, EnterLoop(st), env, w.depth, k, k);
    if r1.Done? {
      AgreeInLoop(st, r1.st, names);
      EndsAllOff(st, r1.st, names, Changes(n, w.depth));
    }
  }

  /** The end of a for loop, and of the scope of its init. */
  lemma LeavesAllOff(st: St, st1: St, names: set<string>, locals: set<string>, all: set<string>)
    requires st.mask == {} && Agree(st, st1.(broke := st.broke, continued := st.continued), names)
    requires names - locals <= all
    ensures Agree(st, LeaveScope(st, FinishLoop(st, Done(st1, [])).st, locals), all)
  {
    hide Agree, LeaveScope;
    EndsAllOff(st, st1, names, names);
    LeavingDrops(st, FinishLoop(st, Done(st1, [])).st, names, locals);
    AgreeMore(st, LeaveScope(st, FinishLoop(st, Done(st1, [])).st, locals), names - locals, all);
  }

  lemma AgreeInLoop(st: St, st1: St, names: set<string>)
    requires Agree(EnterLoop(st), st1, names)
    ensures Agree(st, st1.(broke := st.broke, continued := st.continued), names)
  {
  }

  // ---------- a switch with no lane on ----------

  lemma {:induction false} LabelsAllOff(
    n: Node, i: nat, st: St, c: seq<int>, started: bool, env: Env, d: nat, k: nat)
    requires Good(n, env) && n.kind.Switch? && n.kids != [] && 1 <= i <= |n.kids| && st.mask == {} && st.broke == {}
    ensures OffEnd(n, st, RunLabels(n, i, st, {}, c, started, env, d, k), KidsChange(n, 1, d))
    decreases n, 1, |n.kids| - i
  {
    hide Good, Run, HasUniformLoop, Agree, KidsChange, KidChanges, Changes, Uniform, Matches;
    var names := KidsChange(n, 1, d);
    if i == |n.kids| {
      AgreeSame(st, names);
    } else {
      assert Starting(n, i, {}, c) == {} && st.(mask := {} + {}) == st;
      var now := started || Matches(n, n.kids[i], InLane(c, 0));
      LabelsAllOff(n, i + 1, st, c, now, env, d, k);
      LabelAllOff(n, i, st, env, d, k);
      var r := Run(n.kids[i], st, env, Labels(n, d), k);
      if r.Done? {
        LabelsAllOff(n, i + 1, r.st, c, now, env, d, k);
        ThenEnds(n, st, r.st, RunLabels(n, i + 1, r.st, {}, c, now, env, d, k), names);
      }
    }
  }

  lemma LabelNames(n: Node, i: nat, env: Env, d: nat)
    requires Good(n, env) && n.kind.Switch? && 1 <= i < |n.kids|
    ensures Good(n.kids[i], env)
    ensures Changes(n.kids[i], Labels(n, d).depth) <= KidsChange(n, 1, d)
    ensures HasUniformLoop(n.kids[i]) ==> HasUniformLoop(n)
  {
    LoopParts(n, env);
    KidChangesIn(n, 1, i, d);
    hide Good, Changes, Uniform, UniformFlow, KidsChange;
    assert Changes(n.kids[i], Labels(n, d).depth) - {} == KidChanges(n, i, d);
  }

  lemma {:induction false} LabelAllOff(n: Node, i: nat, st: St, env: Env, d: nat, k: nat)
    requires Good(n, env) && n.kind.Switch? && 1 <= i < |n.kids| && st.mask == {}
    ensures
      var r := Run(n.kids[i], st, env, Labels(n, d), k);
      && !r.Fault? && (r.Jumped? ==> r.toBreak) && (r.Unfinished? ==> HasUniformLoop(n))
      && (r.Done? || r.Jumped? ==>
            Agree(st, r.st, KidsChange(n, 1, d)) && r.st == st.(uni := r.st.uni, vars := r.st.vars))
    decreases n, 0, 0
  {
    hide Good, Run, HasUniformLoop, Agree, KidsChange, Changes, Uniform, KidDepth, Spread;
    LabelNames(n, i, env, d);
    RunAllOff(n.kids[i], st, env, Labels(n, d), k);
    var r := Run(n.kids[i], st, env, Labels(n, d), k);
    if r.Done? || r.Jumped? {
      var names := Changes(n.kids[i], Labels(n, d).depth);
      AgreeMask(st, r.st, names);
      AgreeMore(st, r.st, names, KidsChange(n, 1, d));
    }
  }

  lemma {:induction false} SwitchAllOff(n: Node, st: St, env: Env, w: Place, k: nat)
    requires Good(n, env) && st.mask == {} && n.kind.Switch? && n.kids != []
    ensures OffResult(n, st, RunSwitch(n, st, env, w, k), w)
    decreases n, 1, |n.kids| + 2
  {
    hide Good, SameOutside, HasUniformLoop, KidsChange, KidChanges, LeaveScope, Agree, RunLabels, Run, Changes, Locals;
    hide Uniform, UniformFlow, Spread, Starting, FinishSwitch, Declared;
    FirstPart(n, env, w.depth);
    var names, inner := KidsChange(n, 0, w.depth), KidsChange(n, 1, w.depth);
    HeaderAllOff(n, 0, st, env, w.depth, k);
    var t := Run(n.kids[0], st, env, Plain(w.depth), k);
    var c, started := Part(t.value, 0), !Uniform(n.kids[0]);
    AllLabelsAllOff(n, t.st, c, started, env, w.depth, k);
    var r := FinishSwitch(t.st, RunLabels(n, 1, t.st.(broke := {}), {}, c, started, env, w.depth, k));
    if r.Done? {
      AgreeTrans(st, t.st, r.st, KidChanges(n, 0, w.depth), inner, names);
      LeavingDrops(st, r.st, names, Locals(n));
      AgreeMore(st, LeaveScope(st, r.st, Locals(n)), names - Locals(n), Changes(n, w.depth));
    }
    assert t.st.(broke := {}, mask := if Uniform(n.kids[0]) then t.st.mask else {}) == t.st.(broke := {});
  }

  lemma {:induction false} AllLabelsAllOff(n: Node, st: St, c: seq<int>, started: bool, env: Env, d: nat, k: nat)
    requires Good(n, env) && n.kind.Switch? && n.kids != [] && st.mask == {}
    ensures
      OffEnd(n, st, FinishSwitch(st, RunLabels(n, 1, st.(broke := {}), {}, c, started, env, d, k)), KidsChange(n, 1, d))
    decreases n, 1, |n.kids| + 1
  {
    hide Good, HasUniformLoop, KidsChange, RunLabels, Agree, SameOutside;
    var names := KidsChange(n, 1, d);
    LabelsAllOff(n, 1, st.(broke := {}), c, started, env, d, k);
    var r := RunLabels(n, 1, st.(broke := {}), {}, c, started, env, d, k);
    if r.Done? {
      AgreeMask(st.(broke := {}), r.st, names);
      AgreeInSwitch(st, r.st, names);
      assert r.st.(broke := st.broke, continued := st.continued) == r.st.(broke := st.broke);
      EndsAllOff(st, r.st, names, names);
    }
  }

  lemma AgreeInSwitch(st: St, st1: St, names: set<string>)
    requires Agree(st.(broke := {}), st1, names)
    ensures Agree(st, st1.(broke := st.broke), names)
  {
  }

  /** Soundness: if the analysis says so, running the code with no lane on faults nowhere,
      changes nothing but the variables that Changes reads off its text, and ends, unless
      one of its uniform loops does not. */
  lemma {:induction false} RunAllOff(n: Node, st: St, env: Env, w: Place, k: nat)
    requires Good(n, env) && st.mask == {}
    ensures OffResult(n, st, Run(n, st, env, w, k), w)
    decreases n, 2, 0
  {
    GoodParts(n, env);
    hide Good, SameOutside, Changes, HasUniformLoop, Agree;
    if Strict(n.kind) {
      StrictAllOff(n, st, env, w, k);
    } else if n.kind.If? {
      IfAllOff(n, st, env, w, k);
    } else if n.kind.Select? {
      SelectAllOff(n, st, env, w, k);
    } else if n.kind.Logical? {
      LogicalAllOff(n, st, env, w, k);
    } else if n.kind.Call? {
      AgreeSame(st, Changes(n, w.depth));
    } else if n.kind.Switch? {
      SwitchAllOff(n, st, env, w, k);
    } else if n.kind.For? {
      WholeForAllOff(n, st, env, w, k);
    } else {
      WholeDoAllOff(n, st, env, w, k);
    }
  }
}
