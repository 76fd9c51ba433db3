/** How the masked run follows one lane, and that a single node does. */
module LaneSteps {
  import opened MaskContext
  import opened AllOffSafety
  import opened AllOffRun
  import opened AllOffSoundness
  import opened LaneMeaning
  import opened LaneStores
  import opened LaneValues

  /** The lane has not broken, continued or returned. */
  predicate Free(l: Lane, st: St)
  {
    l !in st.broke && l !in st.continued && l !in st.returned
  }

  /** The lane is on, and its variables are u and m. */
  predicate Agrees(l: Lane, st: St, u: Memory, m: Memory)
  {
    l < |st.vars| && l in st.mask && Free(l, st) && u == st.uni && m == st.vars[l]
  }

  /** The lane was off, is off, and the names apart nothing has changed that it will see. */
  ghost predicate Waits(l: Lane, st: St, st1: St, names: set<string>)
  {
    && l < |st.vars| == |st1.vars| && l !in st1.mask
    && (l in st1.broke <==> l in st.broke) && (l in st1.continued <==> l in st.continued)
    && (l in st1.returned <==> l in st.returned)
    && SameOutside(st.uni, st1.uni, names) && SameOutside(st.vars[l], st1.vars[l], names)
  }

  /** The lane has left by itself, it is recorded as what it is, and the names apart its
      variables are as it left them. */
  ghost predicate Gone(l: Lane, st1: St, own: LaneResult, names: set<string>)
  {
    && own.Left? && l < |st1.vars| && l !in st1.mask
    && (l in st1.broke <==> own.how == Broke) && (l in st1.continued <==> own.how == Continued)
    && (l in st1.returned <==> own.how == Returned)
    && SameOutside(own.u, st1.uni, names) && SameOutside(own.m, st1.vars[l], names)
  }

  /** `own` is what lane l does by itself, and r what the gang does. */
  ghost predicate Tracks(l: Lane, st: St, r: Result, own: LaneResult, names: set<string>)
  {
    match r
    case Done(st1, value) =>
      if l !in st.mask then Waits(l, st, st1, names)
      else if l in st1.mask then
        own.LaneDone? && Agrees(l, st1, own.u, own.m) && SameValue(value, own.value, l)
      else Gone(l, st1, own, names)
    case Jumped(st1, toBreak) =>
      if l !in st.mask then Waits(l, st, st1, names)
      else if l in st1.mask then
        own.Left? && Agrees(l, st1, own.u, own.m) && own.how == if toBreak then Broke else Continued
      else Gone(l, st1, own, names)
    case _ => true
  }

  /** A lane that is on has taken no way out. */
  predicate LaneOK(l: Lane, st: St)
  {
    l < |st.vars| && (l in st.mask ==> Free(l, st))
  }

  // ---------- composition ----------

  lemma WaitsNot(l: Lane, st: St, names: set<string>)
    requires l < |st.vars| && l !in st.mask
    ensures Waits(l, st, st, names)
  {
  }

  lemma WaitsOn(l: Lane, a: St, b: St, c: St, names: set<string>, more: set<string>, all: set<string>)
    requires Waits(l, a, b, names) && Waits(l, b, c, more) && names <= all && more <= all
    ensures Waits(l, a, c, all)
  {
  }

  lemma StaysGone(l: Lane, b: St, c: St, own: LaneResult, names: set<string>, more: set<string>, all: set<string>)
    requires Gone(l, b, own, names) && Waits(l, b, c, more) && names <= all && more <= all
    ensures Gone(l, c, own, all)
  {
  }

  lemma TracksMore(l: Lane, st: St, r: Result, own: LaneResult, names: set<string>, all: set<string>)
    requires Tracks(l, st, r, own, names) && names <= all
    ensures Tracks(l, st, r, own, all)
  {
  }

  /** A lane that waits while nothing changes has its variables as before. */
  lemma WaitsSame(l: Lane, st: St, st1: St, names: set<string>)
    requires Waits(l, st, st1, names) && names == {}
    ensures st1.uni == st.uni && st1.vars[l] == st.vars[l]
  {
    SameIsEqual(st.uni, st1.uni);
    SameIsEqual(st.vars[l], st1.vars[l]);
  }

  lemma GoneSame(l: Lane, st1: St, own: LaneResult, names: set<string>)
    requires Gone(l, st1, own, names) && names == {}
    ensures st1.uni == own.u && st1.vars[l] == own.m
  {
    SameIsEqual(own.u, st1.uni);
    SameIsEqual(own.m, st1.vars[l]);
  }

  /** What comes after b, when the lane was off in a, or has left before b. */
  lemma TracksOff(
    l: Lane, a: St, b: St, r: Result, own: LaneResult, any: LaneResult,
    names: set<string>, more: set<string>, all: set<string>)
    requires Tracks(l, b, r, any, more) && names <= all && more <= all
    requires if l in a.mask then Gone(l, b, own, names) else Waits(l, a, b, names)
    ensures Tracks(l, a, r, own, all)
  {
    hide SameOutside;
    if r.Done? || r.Jumped? {
      if l in a.mask {
        StaysGone(l, b, r.st, own, names, more, all);
      } else {
        WaitsOn(l, a, b, r.st, names, more, all);
      }
    }
  }

  /** What comes after b, when the lane was on in a and still is. */
  lemma TracksThen(l: Lane, a: St, b: St, r: Result, own: LaneResult, names: set<string>, all: set<string>)
    requires l in a.mask && l in b.mask && Tracks(l, b, r, own, names) && names <= all
    ensures Tracks(l, a, r, own, all)
  {
  }

  lemma LeaveTracks(l: Lane, st: St, r: Result, own: LaneResult, names: set<string>, locals: set<string>)
    requires l < |st.vars| && Tracks(l, st, r, own, names)
    requires r.Done? || r.Jumped? ==> |r.st.vars| == |st.vars|
    ensures Tracks(l, st, Leave(st, r, locals), LeaveLane(st.uni, st.vars[l], own, locals), names - locals)
  {
    if r.Done? || r.Jumped? {
      OutsideIsAfter(st.uni, r.st.uni, locals);
      OutsideIsAfter(st.vars[l], r.st.vars[l], locals);
      hide Outside, After;
      if l !in st.mask {
        AfterSelf(st.uni, locals);
        AfterSelf(st.vars[l], locals);
        AfterDrops(st.uni, st.uni, r.st.uni, names, locals);
        AfterDrops(st.vars[l], st.vars[l], r.st.vars[l], names, locals);
      } else if l !in r.st.mask {
        AfterDrops(st.uni, own.u, r.st.uni, names, locals);
        AfterDrops(st.vars[l], own.m, r.st.vars[l], names, locals);
      }
    }
  }

  lemma AfterSelf(a: Memory, names: set<string>)
    ensures After(a, a, names) == a
  {
  }

  // ---------- one node, in a lane that is on ----------

  ghost predicate SameNumbers(values: seq<Value>, numbers: seq<seq<int>>, l: Lane)
  {
    |numbers| == |values| && forall i: nat :: i < |values| ==> SameValue(values[i], numbers[i], l)
  }

  lemma SameFirst(values: seq<Value>, numbers: seq<seq<int>>, l: Lane)
    requires SameNumbers(values, numbers, l)
    ensures forall i: nat :: InLane(Scalar(values, i), l) == First(numbers, i)
  {
    forall i: nat
      ensures InLane(Scalar(values, i), l) == First(numbers, i)
    {
      if i < |values| {
        assert SameValue(values[i], numbers[i], l);
      }
    }
  }

  lemma OneSame(c: seq<int>, x: int, l: Lane)
    requires InLane(c, l) == x
    ensures SameValue([c], [x], l)
  {
  }

  lemma NothingSame(l: Lane)
    ensures SameValue([], [], l)
  {
  }

  /** The p-th number of the value goes to a uniform part. */
  predicate ToUniform(lvalue: Node, p: nat)
    requires LValue(lvalue)
  {
    match lvalue.kind
    case Symbol(v) => p < |v.parts| && v.parts[p]
    case Member(_, part, _) => p == 0 && Base(lvalue).parts[part]
    case Index(_) => p == 0 && EvenElement(lvalue)
  }

  lemma FitsIsEven(lvalue: Node, n: Node, p: nat)
    requires LValue(lvalue) && StoreFits(lvalue, n) && ToUniform(lvalue, p)
    ensures EvenPart(n, p)
  {
    hide EvenPart;
  }

  lemma OneNumberIsEven(lvalue: Node, p: nat)
    requires LValue(lvalue) && OneNumber(lvalue) && ToUniform(lvalue, p)
    ensures p == 0 && EvenPart(lvalue, 0)
  {
  }

  lemma StoresEven(lvalue: Node, value: Value, l: Lane)
    requires LValue(lvalue) && (lvalue.kind.Index? ==> ElementFits(lvalue, true))
    requires forall p: nat :: ToUniform(lvalue, p) ==> InLane(Part(value, p), 0) == InLane(Part(value, p), l)
    ensures EvenStore(lvalue, value, l)
  {
    assert ToUniform(lvalue, 0) ==> InLane(Part(value, 0), 0) == InLane(Part(value, 0), l);
    if lvalue.kind.Symbol? {
      forall p: nat | p < |lvalue.kind.variable.parts| && lvalue.kind.variable.parts[p]
        ensures InLane(Part(value, p), 0) == InLane(Part(value, p), l)
      {
        assert ToUniform(lvalue, p);
      }
    }
  }

  lemma FitsElement(lvalue: Node, n: Node)
    requires LValue(lvalue) && lvalue.kind.Index? && StoreFits(lvalue, n)
    ensures ElementFits(lvalue, true)
  {
  }

  lemma DivisorNotZero(n: Node, st: St, values: seq<Value>, numbers: seq<seq<int>>, env: Env, g: nat, l: Lane)
    requires |n.kids| == 2 && AllEven(n, 0, values, g) && SameNumbers(values, numbers, l)
    requires l in st.mask && l < |st.vars| == g && (Uniform(n) ==> Uniform(n.kids[1]))
    requires n.kids[1].kind.Const? ==> |n.kids[1].kind.vals| == 1 || |n.kids[1].kind.vals| == g
    requires Divides(Uniform(n), n.kids[1], Scalar(values, 1), st, env)
    ensures First(numbers, 1) != 0
  {
    SameFirst(values, numbers, l);
    var b := n.kids[1];
    if Uniform(n) {
      assert EvenPart(b, 0) && EvenAt(values[1 - 0], 0, g);
    } else if Splat(b) {
      assert b.kind.Const? && values[1 - 0] == [Spread(b.kind.vals, g)];
      var same := if |b.kind.vals| == 1 then 0 else l;
      assert b.kind.vals[same] in b.kind.vals;
    } else {
      assert st.mask != {};
    }
  }

  lemma OperatesOn(n: Node, op: BinaryOp, st: St, values: seq<Value>, numbers: seq<seq<int>>, env: Env, g: nat, l: Lane)
    requires |n.kids| == 2 && AllEven(n, 0, values, g) && SameNumbers(values, numbers, l)
    requires l in st.mask && l < |st.vars| == g && (Uniform(n) ==> Uniform(n.kids[1]))
    requires n.kids[1].kind.Const? ==> |n.kids[1].kind.vals| == 1 || |n.kids[1].kind.vals| == g
    ensures
      var r := Operate(n, op, Scalar(values, 0), Scalar(values, 1), st, env);
      r.Done? ==>
        && r.st == st && (op.DivMod? ==> First(numbers, 1) != 0)
        && SameValue(r.value, [op.f(First(numbers, 0), First(numbers, 1))], l)
        && (EvenPart(n.kids[0], 0) && EvenPart(n.kids[1], 0) ==>
              InLane(Part(r.value, 0), 0) == InLane(Part(r.value, 0), l))
  {
    var r := Operate(n, op, Scalar(values, 0), Scalar(values, 1), st, env);
    if r.Done? {
      if op.DivMod? {
        DivisorNotZero(n, st, values, numbers, env, g, l);
      }
      SameFirst(values, numbers, l);
      OneSame(r.value[0], op.f(First(numbers, 0), First(numbers, 1)), l);
      if EvenPart(n.kids[0], 0) && EvenPart(n.kids[1], 0) {
        assert EvenAt(values[0 - 0], 0, g) && EvenAt(values[1 - 0], 0, g);
      }
    }
  }

  predicate ConstsFit(n: Node, g: nat)
  {
    forall i :: 0 <= i < |n.kids| && n.kids[i].kind.Const? ==> |n.kids[i].kind.vals| == 1 || |n.kids[i].kind.vals| == g
  }

  /** Lane l is on, and `values` are the results of the children, `numbers` the lane's own. */
  ghost predicate AtNode(n: Node, st: St, values: seq<Value>, numbers: seq<seq<int>>, g: nat, l: Lane)
  {
    && |st.vars| == g && LaneOK(l, st) && l in st.mask && ConstsFit(n, g)
    && AllEven(n, 0, values, g) && SameNumbers(values, numbers, l)
  }

  ghost predicate TracksNode(n: Node, st: St, values: seq<Value>, numbers: seq<seq<int>>, env: Env, w: Place, l: Lane)
    requires l < |st.vars|
  {
    Tracks(l, st, Apply(n, st, values, env, w), LaneApply(n, l, st.uni, st.vars[l], numbers, w.canContinue), {})
  }

  lemma LeavesTrack(n: Node, st: St, values: seq<Value>, numbers: seq<seq<int>>, env: Env, w: Place, g: nat, l: Lane)
    requires AtNode(n, st, values, numbers, g, l) && Shaped(n, w.depth, g)
    requires || n.kind.Const? || n.kind.Symbol? || n.kind.Combine? || n.kind.Member?
             || (n.kind.Unary? && n.kind.unary.Map?)
    ensures TracksNode(n, st, values, numbers, env, w, l)
  {
    SameFirst(values, numbers, l);
    match n.kind
    case Symbol(v) => ReadsOwn(st, v, l);
    case Const(vals) => OneSame(Spread(vals, |st.vars|), ConstAt(vals, l), l);
    case Unary(Map(f)) =>
      var c := seq(|st.vars|, i requires 0 <= i < |st.vars| => f(InLane(Scalar(values, 0), i)));
      OneSame(c, f(First(numbers, 0)), l);
    case Combine(f) =>
      forall i: nat | i < |values|
        ensures Number(numbers[i], 0) == InLane(Part(values[i], 0), l)
      {
        assert SameValue(values[i], numbers[i], l);
      }
      assert Column(values, l) == seq(|numbers|, i requires 0 <= i < |numbers| => Number(numbers[i], 0));
    case Member(_, part, _) =>
      if values != [] {
        assert SameValue(values[0], numbers[0], l);
      }
  }

  lemma BinaryTracks(n: Node, st: St, values: seq<Value>, numbers: seq<seq<int>>, env: Env, w: Place, g: nat, l: Lane)
    requires AtNode(n, st, values, numbers, g, l) && Shaped(n, w.depth, g) && n.kind.Binary?
    ensures TracksNode(n, st, values, numbers, env, w, l)
  {
    OperatesOn(n, n.kind.binary, st, values, numbers, env, g, l);
    hide Operate, SameValue, AllEven, SameNumbers;
  }

  lemma IndexTracks(n: Node, st: St, values: seq<Value>, numbers: seq<seq<int>>, env: Env, w: Place, g: nat, l: Lane)
    requires AtNode(n, st, values, numbers, g, l) && Shaped(n, w.depth, g) && n.kind.Index?
    ensures TracksNode(n, st, values, numbers, env, w, l)
  {
    SameFirst(values, numbers, l);
    var r := Apply(n, st, values, env, w);
    if r.Done? {
      if Uniform(n) {
        assert EvenPart(n.kids[1], 0) && EvenAt(values[1 - 0], 0, g);
      }
      assert SameValue(values[0], numbers[0], l);
    }
  }

  lemma JumpsTrack(n: Node, st: St, values: seq<Value>, numbers: seq<seq<int>>, env: Env, w: Place, g: nat, l: Lane)
    requires AtNode(n, st, values, numbers, g, l) && (n.kind.Break? || n.kind.Continue?)
    ensures TracksNode(n, st, values, numbers, env, w, l)
  {
    NothingSame(l);
    hide AllEven, SameNumbers;
  }

  lemma SlotHolds(st: St, slot: Variable, value: Value, own: seq<int>, l: Lane)
    requires l < |st.vars| && l in st.mask && SameValue(value, own, l) && !HasUniformPart(slot)
    ensures
      var st1 := WriteParts(st, slot, value, 0, false);
      st1.uni == st.uni && st1.vars[l] == st.vars[l] + Stored(slot, own, false)
  {
    WritesAll(st, slot, value, false, own, l);
    assert Stored(slot, own, true) == map[];
    hide WriteParts, Stored;
  }

  lemma ReturnTracks(n: Node, st: St, values: seq<Value>, numbers: seq<seq<int>>, env: Env, w: Place, g: nat, l: Lane)
    requires AtNode(n, st, values, numbers, g, l) && Shaped(n, w.depth, g) && n.kind.Return?
    ensures TracksNode(n, st, values, numbers, env, w, l)
  {
    var slot, value := n.kind.slot, if values == [] then [] else values[0];
    var own := if numbers == [] then [] else numbers[0];
    NothingSame(l);
    assert SameValue(value, own, l);
    assert !slot.uniform && !HasUniformPart(slot);
    SlotHolds(st, slot, value, own, l);
    hide WriteParts, Stored, AllEven, SameNumbers, SameValue, Shaped, HasUniformPart, ConstsFit;
  }

  lemma DeclTracks(n: Node, st: St, values: seq<Value>, numbers: seq<seq<int>>, env: Env, w: Place, g: nat, l: Lane)
    requires AtNode(n, st, values, numbers, g, l) && Shaped(n, w.depth, g) && n.kind.Decl?
    ensures TracksNode(n, st, values, numbers, env, w, l)
  {
    var v, value := n.kind.declared, if values == [] then [] else values[0];
    var own := if numbers == [] then [] else numbers[0];
    NothingSame(l);
    assert SameValue(value, own, l);
    forall p: nat | p < |v.parts| && v.parts[p]
      ensures InLane(Part(value, p), 0) == InLane(Part(value, p), l)
    {
      if n.kids != [] {
        assert EvenPart(n.kids[0], p) && EvenAt(values[0 - 0], p, g);
      }
    }
    WritesAll(st, v, value, true, own, l);
    hide WriteParts, AllEven, SameNumbers, SameValue;
  }

  lemma StepTracks(n: Node, st: St, values: seq<Value>, numbers: seq<seq<int>>, env: Env, w: Place, g: nat, l: Lane)
    requires AtNode(n, st, values, numbers, g, l) && Shaped(n, w.depth, g) && n.kind.Unary? && n.kind.unary.IncDec?
    ensures TracksNode(n, st, values, numbers, env, w, l)
  {
    var v0, a, delta := Scalar(values, 0), First(numbers, 0), n.kind.unary.delta;
    var stepped := Stepped(st, v0, delta);
    SameFirst(values, numbers, l);
    OneSame(stepped, a + delta, l);
    OneSame(v0, a, l);
    forall p: nat | ToUniform(n.kids[0], p)
      ensures InLane(Part([stepped], p), 0) == InLane(Part([stepped], p), l)
    {
      OneNumberIsEven(n.kids[0], p);
      assert EvenAt(values[0 - 0], 0, g);
    }
    StoresEven(n.kids[0], [stepped], l);
    StoresOn(st, n.kids[0], [stepped], w.depth, [a + delta], l);
    hide Store, AllEven, SameNumbers, SameValue, EvenStore, Change, Stepped;
  }

  lemma AssignTracks(n: Node, st: St, values: seq<Value>, numbers: seq<seq<int>>, env: Env, w: Place, g: nat, l: Lane)
    requires AtNode(n, st, values, numbers, g, l) && Shaped(n, w.depth, g) && n.kind == Assign(None)
    ensures TracksNode(n, st, values, numbers, env, w, l)
  {
    assert SameValue(values[1], numbers[1], l);
    forall p: nat | ToUniform(n.kids[0], p)
      ensures InLane(Part(values[1], p), 0) == InLane(Part(values[1], p), l)
    {
      FitsIsEven(n.kids[0], n.kids[1], p);
      assert EvenAt(values[1 - 0], p, g);
    }
    StoresEven(n.kids[0], values[1], l);
    StoresOn(st, n.kids[0], values[1], w.depth, numbers[1], l);
    hide Store, AllEven, SameNumbers, SameValue, EvenStore, Change;
  }

  lemma CompoundTracks(n: Node, st: St, values: seq<Value>, numbers: seq<seq<int>>, env: Env, w: Place, g: nat, l: Lane)
    requires AtNode(n, st, values, numbers, g, l) && Shaped(n, w.depth, g) && n.kind.Assign? && n.kind.compound.Some?
    ensures TracksNode(n, st, values, numbers, env, w, l)
  {
    var op, x := n.kind.compound.value, n.kids[0];
    var r := Operate(n, op, Scalar(values, 0), Scalar(values, 1), st, env);
    assert StoreFits(x, n.kids[1]) && OneNumber(x) && (Uniform(n) ==> Uniform(n.kids[1]));
    OperatesOn(n, op, st, values, numbers, env, g, l);
    hide Operate, Store, AllEven, SameNumbers, SameValue, EvenStore, Change, Shaped, Uniform;
    if r.Done? {
      var number := op.f(First(numbers, 0), First(numbers, 1));
      forall p: nat | ToUniform(x, p)
        ensures InLane(Part(r.value, p), 0) == InLane(Part(r.value, p), l)
      {
        FitsIsEven(x, n.kids[1], p);
        OneNumberIsEven(x, p);
      }
      StoresEven(x, r.value, l);
      StoresOn(st, x, r.value, w.depth, [number], l);
    }
  }

  /** The node's own part, when its lane is on. */
  lemma NodeTracks(n: Node, st: St, values: seq<Value>, numbers: seq<seq<int>>, env: Env, w: Place, g: nat, l: Lane)
    requires AtNode(n, st, values, numbers, g, l) && Shaped(n, w.depth, g) && Strict(n.kind) && !n.kind.Logical?
    ensures TracksNode(n, st, values, numbers, env, w, l)
  {
    NoEffect(n, w.depth, g);
    hide AtNode, Shaped;
    match n.kind {
      case Const(_) => LeavesTrack(n, st, values, numbers, env, w, g, l);
      case Symbol(_) => LeavesTrack(n, st, values, numbers, env, w, g, l);
      case Unary(Map(_)) => LeavesTrack(n, st, values, numbers, env, w, g, l);
      case Unary(IncDec(_)) => StepTracks(n, st, values, numbers, env, w, g, l);
      case Binary(_) => BinaryTracks(n, st, values, numbers, env, w, g, l);
      case Assign(None) => AssignTracks(n, st, values, numbers, env, w, g, l);
      case Assign(Some(_)) => CompoundTracks(n, st, values, numbers, env, w, g, l);
      case Combine(_) => LeavesTrack(n, st, values, numbers, env, w, g, l);
      case Index(_) => IndexTracks(n, st, values, numbers, env, w, g, l);
      case Member(_, _, _) => LeavesTrack(n, st, values, numbers, env, w, g, l);
      case Decl(_) => DeclTracks(n, st, values, numbers, env, w, g, l);
      case Break => JumpsTrack(n, st, values, numbers, env, w, g, l);
      case Continue => JumpsTrack(n, st, values, numbers, env, w, g, l);
      case Return(_) => ReturnTracks(n, st, values, numbers, env, w, g, l);
      case _ => PlainTracks(n, st, values, numbers, env, w, g, l);
    }
  }

  lemma PlainTracks(n: Node, st: St, values: seq<Value>, numbers: seq<seq<int>>, env: Env, w: Place, g: nat, l: Lane)
    requires AtNode(n, st, values, numbers, g, l)
    requires n.kind.Null? || n.kind.ExprStmt? || n.kind.Block? || n.kind.Label?
    ensures TracksNode(n, st, values, numbers, env, w, l)
  {
    NothingSame(l);
    hide AllEven, SameNumbers;
  }

  // ---------- one node, in a lane that is off ----------

  lemma StoreWaits(n: Node, st: St, value: Value, d: nat, l: Lane, names: set<string>)
    requires n.kids != [] && LValue(n.kids[0]) && (n.kids[0].kind.Index? ==> ElementFits(n.kids[0], true))
    requires l < |st.vars| && l !in st.mask && Spilled(n.kids[0], d) <= names
    ensures Waits(l, st, Store(st, n.kids[0], value, d), names)
  {
    StoresOff(st, n.kids[0], value, d, l);
    hide Store, Spills;
  }

  lemma AssignWaits(n: Node, st: St, values: seq<Value>, env: Env, w: Place, g: nat, l: Lane)
    requires Shaped(n, w.depth, g) && n.kind.Assign? && l < |st.vars| && l !in st.mask
    ensures
      var r := Apply(n, st, values, env, w);
      !r.Jumped? && (r.Done? ==> Waits(l, st, r.st, Own(n, w.depth)))
  {
    if n.kids[0].kind.Index? {
      FitsElement(n.kids[0], n.kids[1]);
    }
    hide Shaped, ElementFits, Store, Operate, Waits;
    var r := Assigned(n, n.kind.compound, values, st, env);
    if r.Done? {
      StoreWaits(n, st, r.value, w.depth, l, Own(n, w.depth));
    }
  }

  lemma StepWaits(n: Node, st: St, values: seq<Value>, env: Env, w: Place, g: nat, l: Lane)
    requires Shaped(n, w.depth, g) && n.kind.Unary? && n.kind.unary.IncDec? && l < |st.vars| && l !in st.mask
    ensures
      var r := Apply(n, st, values, env, w);
      r.Done? && Waits(l, st, r.st, Own(n, w.depth))
  {
    hide ElementFits, Store, Waits, Stepped;
    StoreWaits(n, st, [Stepped(st, Scalar(values, 0), n.kind.unary.delta)], w.depth, l, Own(n, w.depth));
  }

  lemma WriteWaits(n: Node, st: St, values: seq<Value>, env: Env, w: Place, g: nat, l: Lane)
    requires Shaped(n, w.depth, g) && (n.kind.Return? || n.kind.Decl?) && l < |st.vars| && l !in st.mask
    ensures
      var r := Apply(n, st, values, env, w);
      r.Done? && Waits(l, st, r.st, Own(n, w.depth))
  {
    hide WriteParts, SameOutside, HasUniformPart, FitsParts;
    var v := if n.kind.Return? then n.kind.slot else n.kind.declared;
    WritesOff(st, v, if values == [] then [] else values[0], 0, if n.kind.Return? then v.uniform else true, l);
  }

  lemma NodeWaits(n: Node, st: St, values: seq<Value>, env: Env, w: Place, g: nat, l: Lane)
    requires Shaped(n, w.depth, g) && Strict(n.kind) && l < |st.vars| && l !in st.mask
    ensures
      var r := Apply(n, st, values, env, w);
      r.Done? || r.Jumped? ==> Waits(l, st, r.st, Own(n, w.depth))
  {
    if n.kind.Assign? {
      AssignWaits(n, st, values, env, w, g, l);
    } else if n.kind.Unary? && n.kind.unary.IncDec? {
      StepWaits(n, st, values, env, w, g, l);
    } else if n.kind.Return? || n.kind.Decl? {
      WriteWaits(n, st, values, env, w, g, l);
    } else {
      NoEffect(n, w.depth, g);
      if n.kind.Index? {
        IndexKind(n, w.depth, g);
      }
      if n.kind.Member? {
        MemberKind(n, w.depth, g);
      }
      hide Shaped, Operate, Element;
      WaitsNot(l, st, Own(n, w.depth));
    }
  }

  // ---------- faults ----------

  lemma DivisionFaults(
    n: Node, st: St, values: seq<Value>, numbers: Lane -> seq<seq<int>>, env: Env, g: nat) returns (l: Lane)
    requires |n.kids| == 2 && (Uniform(n) ==> Uniform(n.kids[1]))
    requires st.mask != {} && forall l :: l in st.mask ==> AtNode(n, st, values, numbers(l), g, l)
    requires !Divides(Uniform(n), n.kids[1], Scalar(values, 1), st, env)
    ensures l in st.mask && First(numbers(l), 1) == 0
  {
    var b, c := n.kids[1], Scalar(values, 1);
    l :| l in st.mask;
    if !Uniform(n) && !Splat(b) {
      l :| l in st.mask && l < |st.vars| && InLane(c, l) == 0;
    }
    assert AtNode(n, st, values, numbers(l), g, l);
    SameFirst(values, numbers(l), l);
    if Uniform(n) {
      assert EvenPart(b, 0) && EvenAt(values[1 - 0], 0, g);
    } else if Splat(b) {
      assert values[1 - 0] == [Spread(b.kind.vals, g)];
      var same := if |b.kind.vals| == 1 then 0 else l;
      assert b.kind.vals[same] in b.kind.vals;
    }
  }

  lemma IndexFaults(n: Node, st: St, values: seq<Value>, numbers: Lane -> seq<seq<int>>, env: Env, w: Place, g: nat)
    returns (l: Lane)
    requires Shaped(n, w.depth, g) && n.kind.Index?
    requires st.mask != {} && forall l :: l in st.mask ==> AtNode(n, st, values, numbers(l), g, l)
    requires Apply(n, st, values, env, w) == Fault
    ensures l in st.mask && l < |st.vars| && LaneApply(n, l, st.uni, st.vars[l], numbers(l), w.canContinue) == LaneFault
  {
    var c, count := Scalar(values, 1), n.kind.base.count;
    l :| l in st.mask;
    if !Uniform(n) {
      l :| l in st.mask && l < |st.vars| && !(0 <= InLane(c, l) < count);
    }
    assert AtNode(n, st, values, numbers(l), g, l);
    SameFirst(values, numbers(l), l);
    if Uniform(n) {
      assert EvenPart(n.kids[1], 0) && EvenAt(values[1 - 0], 0, g);
    }
  }

  ghost predicate SomeLaneFaults(n: Node, st: St, numbers: Lane -> seq<seq<int>>, inLoop: bool)
  {
    exists l :: l in st.mask && l < |st.vars| && LaneApply(n, l, st.uni, st.vars[l], numbers(l), inLoop) == LaneFault
  }

  /** While some lane is on, a node faults if and only if it would in a lane that is on. */
  lemma NodeFaultsExact(n: Node, st: St, values: seq<Value>, numbers: Lane -> seq<seq<int>>, env: Env, w: Place, g: nat)
    requires Shaped(n, w.depth, g) && Strict(n.kind) && !n.kind.Logical?
    requires st.mask != {} && forall l :: l in st.mask ==> AtNode(n, st, values, numbers(l), g, l)
    ensures Apply(n, st, values, env, w) == Fault <==> SomeLaneFaults(n, st, numbers, w.canContinue)
  {
    var r := Apply(n, st, values, env, w);
    if r == Fault {
      if n.kind.Index? {
        var l := IndexFaults(n, st, values, numbers, env, w, g);
      } else {
        OnlyDivisionsFault(n, st, values, env, w, g);
        var l := DivisionFaults(n, st, values, numbers, env, g);
        assert LaneApply(n, l, st.uni, st.vars[l], numbers(l), w.canContinue) == LaneFault;
      }
    } else if SomeLaneFaults(n, st, numbers, w.canContinue) {
      var l :| l in st.mask && l < |st.vars|
        && LaneApply(n, l, st.uni, st.vars[l], numbers(l), w.canContinue) == LaneFault;
      NodeTracks(n, st, values, numbers(l), env, w, g, l);
    }
  }

  lemma OnlyDivisionsFault(n: Node, st: St, values: seq<Value>, env: Env, w: Place, g: nat)
    requires Shaped(n, w.depth, g) && Strict(n.kind) && !n.kind.Index? && Apply(n, st, values, env, w) == Fault
    ensures |n.kids| == 2 && (Uniform(n) ==> Uniform(n.kids[1]))
    ensures !Divides(Uniform(n), n.kids[1], Scalar(values, 1), st, env)
    ensures n.kind.Binary? || (n.kind.Assign? && n.kind.compound.Some?)
    ensures n.kind.Binary? ==> n.kind.binary.DivMod?
    ensures n.kind.Assign? ==> n.kind.compound.value.DivMod?
  {
  }
}
