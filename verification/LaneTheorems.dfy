/** What a lane gets out of a gang: uniform variables that change, uniform and do loops,
    breaks, continues, returns and switches included. */
module LaneTheorems {
  import opened MaskContext
  import opened AllOffSafety
  import opened AllOffRun
  import opened AllOffSoundness
  import opened LaneMeaning
  import opened LaneStores
  import opened LaneSteps
  import opened LaneLoops
  import opened LanesAgree
  import opened Predication
  import opened AllOffWitnesses

  /** The variables in which a lane that is done agrees with the gang's memory. */
  ghost predicate AgreesBut(own: Memory, gang: Memory, names: set<string>)
  {
    forall x: Loc :: x.name !in names ==> Held(own, x) == Held(gang, x)
  }

  /** A lane that ran code of a gang, which alone would have given `own`, in the gang's result: it
      still is on if and only if it came to the end, it is recorded as returned if and only if it
      did return, and its variables are its own, but for `names` once it has left. */
  ghost predicate Followed(l: Lane, st1: St, own: LaneResult, names: set<string>)
  {
    && l < |st1.vars|
    && (l in st1.mask <==> own.LaneDone?) && (l !in st1.mask <==> own.Left?)
    && (l in st1.mask ==> own.u == st1.uni && own.m == st1.vars[l])
    && (l in st1.returned <==> own.Left? && own.how == Returned)
    && (own.Left? ==> AgreesBut(own.m, st1.vars[l], names))
  }

  lemma IsFollowed(l: Lane, st: St, r: Result, own: LaneResult, names: set<string>)
    requires Tracks(l, st, r, own, names) && l in st.mask && r.Done?
    ensures Followed(l, r.st, own, names)
  {
    hide SameValue;
  }

  /** The body of a function, or any other code outside of loops.  Only stores that no mask holds
      back may change variables of a lane after it has left. */
  lemma {:induction false} GangFollowsLanes(n: Node, st: St, env: Env, k: nat, g: nat, l: Lane)
    requires LaneCode(n, 0, g) && |st.vars| == g && l < g && l in st.mask && Free(l, st)
    ensures
      var r := Run(n, st, env, Plain(0), k);
      r.Done? ==> Followed(l, r.st, LaneRun(n, l, st.uni, st.vars[l], false, k), Changes(n, 0))
  {
    hide Run, LaneRun, LaneCode, Changes, Tracks, Followed;
    RunTracks(n, st, env, Plain(0), k, g, l);
    var r := Run(n, st, env, Plain(0), k);
    if r.Done? {
      IsFollowed(l, st, r, LaneRun(n, l, st.uni, st.vars[l], false, k), Changes(n, 0));
    }
  }

  /** What a lane computes does not depend on which other lanes run with it, or on what they
      have in their variables. */
  lemma {:induction false} LanesAreIndependent(n: Node, a: St, b: St, env: Env, k: nat, g: nat, l: Lane)
    requires LaneCode(n, 0, g) && |a.vars| == |b.vars| == g && l < g
    requires l in a.mask && Free(l, a) && l in b.mask && Free(l, b)
    requires a.uni == b.uni && a.vars[l] == b.vars[l]
    ensures
      var r, s := Run(n, a, env, Plain(0), k), Run(n, b, env, Plain(0), k);
      r.Done? && s.Done? ==>
        && l < |r.st.vars| && l < |s.st.vars|
        && (l in r.st.mask <==> l in s.st.mask) && (l in r.st.returned <==> l in s.st.returned)
        && (if l in r.st.mask then r.st.uni == s.st.uni && r.st.vars[l] == s.st.vars[l]
            else AgreesBut(r.st.vars[l], s.st.vars[l], Changes(n, 0)))
  {
    GangFollowsLanes(n, a, env, k, g, l);
    GangFollowsLanes(n, b, env, k, g, l);
    hide Run, LaneRun, LaneCode, Changes;
  }

  // ---------- a loop variable ----------

  /** `if (v) continue; x = c;`, the body of a loop. */
  function ContinueThenSet(v: Variable, x: Variable, c: int): Node
  {
    Node(Kind.Block, [ContinueIf(v), Node(Assign(None), [Read(x), Literal(c)])])
  }

  function ContinueIf(v: Variable): Node
  {
    Node(If(false), [Read(v), Node(Continue, []), Nothing])
  }

  predicate Varying(v: Variable)
  {
    !v.uniform && v.parts == [false] && v.plain
  }

  /** The state after the if: the lanes that continued are parked. */
  function Parked(st: St, test: Mask): St
  {
    var continued := st.continued + st.mask * test;
    st.(continued := continued, mask := st.mask - st.returned - st.broke - continued)
  }

  lemma {:induction false} ContinueIfRuns(v: Variable, st: St, env: Env, d: nat, k: nat)
    requires Varying(v)
    ensures
      Run(ContinueIf(v), st, env, Place(true, d, true), k) ==
        Done(Parked(st, TrueLanes(st, ReadPart(st, v, 0))), [])
  {
    hide Run, RunSides, RunSide, TrueLanes, ReadPart, Uniform;
    var n, w, w1 := ContinueIf(v), Place(true, d, true), Place(false, d + 1, true);
    var test := TrueLanes(st, ReadPart(st, v, 0));
    SymbolRuns(Read(v), st, env, Plain(d), k);
    IfRuns(n, st, env, w, k);
    SidesRun(n, st, test, env, w, k);
    IsVarying(v);
    var st1 := st.(continued := st.continued + st.mask * test, mask := {});
    ContinueRuns(st.(mask := st.mask * test), env, w1, k);
    NothingSide(st1.(mask := st.mask - test), env, w1, k);
    assert RunSides(n, st, test, env, w, k) == BothSides(st, Done(st1.(mask := st.mask - test), []));
  }

  lemma IsVarying(v: Variable)
    requires Varying(v)
    ensures !Uniform(Read(v))
    ensures forall st :: ReadVar(st, v) == [ReadPart(st, v, 0)]
  {
  }

  lemma ContinueRuns(st: St, env: Env, w: Place, k: nat)
    requires !w.direct && w.canContinue
    ensures
      RunSide(Node(Continue, []), st, false, env, w, k) ==
        Done(st.(continued := st.continued + st.mask, mask := {}), [])
  {
    LeafRuns(Node(Continue, []), st, env, w, k);
    NoDeclarations(Node(Continue, []));
    hide Run, LeaveScope, Declared;
    LeaveNothing(st, st.(continued := st.continued + st.mask, mask := {}));
  }

  lemma NothingSide(st: St, env: Env, w: Place, k: nat)
    ensures RunSide(Nothing, st, false, env, w, k) == Done(st, [])
  {
    hide RunScope;
    NothingRuns(st, env, w, k);
  }

  lemma {:induction false} ContinueThenSetRuns(
    v: Variable, x: Variable, c: int, st: St, env: Env, d: nat, k: nat)
    requires Varying(v) && Varying(x)
    ensures
      var st1 := Parked(st, TrueLanes(st, ReadPart(st, v, 0)));
      RunScope(ContinueThenSet(v, x, c), st, env, Place(true, d, true), k) ==
        Done(WritePart(st1, x, 0, Spread([c], |st.vars|), Unmasked(x, d)), [])
  {
    var n, w := ContinueThenSet(v, x, c), Place(true, d, true);
    hide Run, WritePart, TrueLanes, Spread, Unmasked, Declared, LeaveScope;
    ContinueIfRuns(v, st, env, d, k);
    var st1 := Parked(st, TrueLanes(st, ReadPart(st, v, 0)));
    var value := [Spread([c], |st.vars|)];
    LiteralRuns(c, st1, env, w, k);
    AssignRuns(n.kids[1], st1, value, env, w, k);
    var st2 := WritePart(st1, x, 0, value[0], Unmasked(x, d));
    hide Parked;
    BothStatements(n, st, st1, st2, value, env, w, k);
    BodyDeclaresNothing(v, x, c);
    LeaveNothing(st, st2);
  }

  lemma BothStatements(n: Node, st: St, st1: St, st2: St, value: Value, env: Env, w: Place, k: nat)
    requires n.kind == Kind.Block && |n.kids| == 2
    requires Run(n.kids[0], st, env, w, k) == Done(st1, []) && Run(n.kids[1], st1, env, w, k) == Done(st2, value)
    ensures Run(n, st, env, w, k) == Done(st2, [])
  {
    BothKids(n, st, Done(st1, []), Done(st2, value), env, w, k);
    hide Run;
  }

  lemma BodyDeclaresNothing(v: Variable, x: Variable, c: int)
    ensures Declared(ContinueThenSet(v, x, c)) == {}
  {
    NoDeclarations(Read(v));
    NoDeclarations(Read(x));
    NoDeclarations(Literal(c));
    NoDeclarations(Nothing);
    NoDeclarations(Node(Continue, []));
    NoDeclarations(Node(Assign(None), [Read(x), Literal(c)]));
    var branch := ContinueIf(v);
    assert DeclaredFrom(branch, 3) == {} && DeclaredFrom(branch, 2) == {} && DeclaredFrom(branch, 1) == {};
    DeclaresIts(branch);
    NoDeclarations(ContinueThenSet(v, x, c));
  }

  /** A lane that passes the test continues, and leaves its variables as they are. */
  lemma {:induction false} LaneContinues(
    v: Variable, x: Variable, c: int, l: Lane, u: Memory, m: Memory, k: nat)
    requires Varying(v) && Held(m, Loc(v.name, 0)) != 0
    ensures LaneScope(ContinueThenSet(v, x, c), l, u, m, true, k) == Left(u, m, Continued)
  {
    var n := ContinueThenSet(v, x, c);
    var branch, leave := n.kids[0], Node(Continue, []);
    assert LaneKids(branch.kids[0], 0, l, u, m, false, k) == LaneAll(u, m, []);
    assert LaneRun(branch.kids[0], l, u, m, false, k) == LaneDone(u, m, LaneRead(u, m, v));
    assert LaneKids(leave, 0, l, u, m, true, k) == LaneAll(u, m, []);
    assert LaneRun(leave, l, u, m, true, k) == Left(u, m, Continued);
    AfterSelf(u, Declared(leave));
    AfterSelf(m, Declared(leave));
    AfterSelf(u, Declared(n));
    AfterSelf(m, Declared(n));
    hide After, Declared;
    assert LaneRun(branch, l, u, m, true, k) == Left(u, m, Continued);
    assert LaneKids(n, 0, l, u, m, true, k) == LaneStopped(Left(u, m, Continued));
  }

  /** A lane that is parked by a continue comes back on for the step with the variables that it had
      if and only if what the rest of the body stores to is not a variable of the loop's
      own depth, as one that the loop's header declares, or holds the value already. */
  lemma {:induction false} ParkedLaneExact(
    v: Variable, x: Variable, c: int, st: St, env: Env, d: nat, k: nat, l: Lane)
    requires Varying(v) && Varying(x) && l < |st.vars| && l in st.mask && Free(l, st)
    requires Held(st.vars[l], Loc(v.name, 0)) != 0
    ensures
      var r := RunScope(ContinueThenSet(v, x, c), st, env, Place(true, d, true), k);
      var own := LaneScope(ContinueThenSet(v, x, c), l, st.uni, st.vars[l], true, k);
      && own == Left(st.uni, st.vars[l], Continued)
      && r.Done? && l in r.st.continued && |r.st.vars| == |st.vars|
      && (r.st.vars[l] == own.m <==> x.depth != d || (Loc(x.name, 0) in own.m && own.m[Loc(x.name, 0)] == c))
  {
    LaneContinues(v, x, c, l, st.uni, st.vars[l], k);
    ContinueThenSetRuns(v, x, c, st, env, d, k);
    hide LaneScope, RunScope, ContinueThenSet;
    var at := Loc(x.name, 0);
    assert st.vars[l][at := c][at] == c;
  }

  lemma NoChanges(n: Node, d: nat)
    requires n.kind.Symbol? || n.kind.Const? || n.kind.Continue? || n.kind.Null?
    requires n.kids == []
    ensures Changes(n, d) == {}
  {
  }

  lemma SetChanges(x: Variable, c: int, d: nat)
    requires Varying(x)
    ensures Changes(Node(Assign(None), [Read(x), Literal(c)]), d) == if x.depth == d then {x.name} else {}
  {
    var n := Node(Assign(None), [Read(x), Literal(c)]);
    NoChanges(Read(x), d);
    NoChanges(Literal(c), d);
    assert KidsChange(n, 2, d) == {} && KidsChange(n, 1, d) == {} && KidsChange(n, 0, d) == {};
  }

  lemma ContinueIfChanges(v: Variable, d: nat)
    ensures Changes(ContinueIf(v), d) == {}
  {
    var n := ContinueIf(v);
    NoChanges(Read(v), KidDepth(n, 0, d));
    NoChanges(Node(Continue, []), KidDepth(n, 1, d));
    NoChanges(Nothing, KidDepth(n, 2, d));
    hide KidDepth, Changes;
    KidsChangeNothing(n, 0, d);
    ChangesOf(n, d);
  }

  lemma BodyChanges(v: Variable, x: Variable, c: int, d: nat)
    requires Varying(x)
    ensures Changes(ContinueThenSet(v, x, c), d) == if x.depth == d then {x.name} else {}
  {
    var n := ContinueThenSet(v, x, c);
    ContinueIfChanges(v, d);
    SetChanges(x, c, d);
    hide Declared;
    assert KidsChange(n, 2, d) == {} && KidsChange(n, 1, d) == Changes(n.kids[1], d);
    assert KidsChange(n, 0, d) == KidsChange(n, 1, d) && Locals(n) == {} && Own(n, d) == {};
  }

  /** Lanes are parked in this body, and it does not break. */
  lemma BodyParks(v: Variable, x: Variable, c: int)
    requires Varying(v)
    ensures VaryingJump(ContinueThenSet(v, x, c), false, false) && !DirectBreak(ContinueThenSet(v, x, c))
  {
    var n := ContinueThenSet(v, x, c);
    assert VaryingJump(n.kids[0].kids[1], true, false);
    assert VaryingJump(n.kids[0], false, false);
    assert UnderIn(n.kids[0], false) && !DirectBreak(n.kids[0]);
    assert !DirectBreak(Read(x)) && !DirectBreak(Literal(c)) && !DirectBreak(n.kids[1]);
  }

  /** What the lemma above excludes is what the condition on loop bodies excludes. */
  lemma {:induction false} ConditionExcludes(n: Node, v: Variable, x: Variable, c: int, d: nat)
    requires n.kind.For? && |n.kids| == 4 && n.kids[3] == ContinueThenSet(v, x, c) && Varying(v) && Varying(x)
    ensures BodyOK(n, 3, d) <==> x.depth != KidDepth(n, 3, d)
  {
    var body, d1 := n.kids[3], KidDepth(n, 3, d);
    assert KidLocals(n, 3) == Declared(body);
    BodyChanges(v, x, c, d1);
    BodyParks(v, x, c);
    BodyDeclaresNothing(v, x, c);
    hide KidDepth, Changes, Declared, ContinueThenSet, VaryingJump, DirectBreak, KidLocals;
    assert KidChanges(n, 3, d) == Changes(body, d1);
  }
}
