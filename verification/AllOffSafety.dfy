/** SafeToRunWithMaskAllOff: when may code be run although no lane is on?

    The tree that the analysis looks at, with what the compiler knows about it: the
    variability of types, the depth of varying control flow that a variable is declared
    at, which names a piece of code declares, and which ones it may write although no
    lane is on. */
module AllOffSafety {
  import opened MaskContext

  datatype UnaryOp = Map(f: int -> int) | IncDec(delta: int)  // pre and post

  /** What an operator computes; the second kind is / and %. */
  datatype BinaryOp = Op(f: (int, int) -> int) | DivMod(f: (int, int) -> int)

  datatype LogicalOp = And | Or

  /** What is indexed: an array with this many elements, an array whose size is not known, or a
      pointer. */
  datatype Indexed = Array(count: nat) | Unsized | Pointer

  /** A variable.  `parts` are its members or elements, one for an atomic type, each of
      them uniform or not; `depth` is the number of varying constructs around its
      declaration; a plain one is neither static nor a pointer nor a reference. */
  datatype Variable = Variable(name: string, uniform: bool, parts: seq<bool>, depth: nat, plain: bool)

  datatype Kind =
    | Null
      // expressions
    | Const(vals: seq<int>)  // one value, or one for each lane
    | Symbol(variable: Variable)
    | Unary(unary: UnaryOp)
    | Binary(binary: BinaryOp)
    | Logical(logical: LogicalOp, shortCircuit: bool)
    | Assign(compound: Option<BinaryOp>)  // = or +=, -=, *=, /=, %=
    | Select(shortCircuit1: bool, shortCircuit2: bool)
    | Combine(f: seq<int> -> int)  // cast, list, reference, ...: no effect of its own
    | Index(base: Indexed)
    | Member(dereference: bool, part: nat, uniformPart: bool)
    | PtrDeref
    | Call(func: Option<string>, isSafe: bool, uniformCall: bool)
    | New(uniformNew: bool)
    | Sync
    | Alloca
      // statements
    | ExprStmt
    | Decl(declared: Variable)
    | Block
    | If(branch: bool)  // branch around a side whose mask is all off
    | For               // init, test, step, body
    | Do                // body, test
    | Switch            // value, labels
    | Label(caseValue: Option<int>, checkMask: bool)  // the statements up to the next label
    | Break
    | Continue
    | Return(slot: Variable)  // the return memory
    | Print
    | Assert
    | Delete
    | Foreach           // and foreach_active, foreach_unique, unmasked

  datatype Node = Node(kind: Kind, kids: seq<Node>)

  /** The variability of an expression's type. */
  predicate Uniform(n: Node)
  {
    match n.kind
    case Const(vals) => |vals| == 1
    case Symbol(v) => v.uniform
    case Assign(_) => n.kids != [] && Uniform(n.kids[0])
    case Call(_, _, uniformCall) => uniformCall
    case Member(_, _, uniformPart) => uniformPart
    case _ => forall i :: 0 <= i < |n.kids| ==> Uniform(n.kids[i])
  }

  /** Operators on variables and constants. */
  predicate Operators(n: Node)
  {
    if n.kind.Const? || n.kind.Symbol? then n.kids == []
    else
      && (n.kind.Unary? || n.kind.Binary? || n.kind.Logical? || n.kind.Select? || n.kind.Combine? || n.kind.Index?)
      && forall i :: 0 <= i < |n.kids| ==> Operators(n.kids[i])
  }

  predicate HasVaryingLeaf(n: Node)
  {
    || (n.kind.Symbol? && !n.kind.variable.uniform)
    || (n.kind.Const? && |n.kind.vals| != 1)
    || exists i :: 0 <= i < |n.kids| && HasVaryingLeaf(n.kids[i])
  }

  /** An operator is varying if and only if one of its operands is. */
  lemma {:induction false} VariabilityExact(n: Node)
    requires Operators(n)
    ensures Uniform(n) <==> !HasVaryingLeaf(n)
  {
    forall i | 0 <= i < |n.kids|
      ensures Uniform(n.kids[i]) <==> !HasVaryingLeaf(n.kids[i])
    {
      VariabilityExact(n.kids[i]);
    }
  }

  // ---------- the analysis ----------

  /** The callback: whether to go on into the children, and the flag. */
  function CheckAllOffSafety(n: Node): (r: (bool, bool))
  {
    match n.kind
    case Call(func, isSafe, _) => if func.None? then (false, true) else (isSafe, isSafe)
    case Assert => (false, false)
    case Print => (false, false)
    case New(_) => (false, false)
    case Delete => (false, false)
    case Foreach => (false, false)
    case Binary(op) => (op.Op?, op.Op?)
    case Index(base) => var ok := |n.kids| == 2 && ConstantInBounds(base, n.kids[1]); (ok, ok)
    case Member(dereference, _, _) => (!dereference, !dereference)
    case PtrDeref => (false, false)
    case Assign(_) => (!Uniform(n), !Uniform(n))
    case Unary(op) => var ok := op.Map? || !Uniform(n); (ok, ok)
    case Sync => (false, false)
    case Alloca => (false, false)
    case _ => (true, true)
  }

  predicate ConstantInBounds(base: Indexed, index: Node)
  {
    && index.kind.Const? && base.Array? && base.count != 0
    && forall i :: 0 <= i < |index.kind.vals| ==> 0 <= index.kind.vals[i] < base.count
  }

  predicate Safe(n: Node)
  {
    n.kind == Null ||
    var r := CheckAllOffSafety(n);
    r.1 && (r.0 ==> forall i :: 0 <= i < |n.kids| ==> Safe(n.kids[i]))
  }

  // ---------- what it finds ----------

  /** What makes a node unsafe by itself, whatever is below it. */
  predicate Hazard(n: Node)
  {
    match n.kind
    case Call(Some(_), isSafe, _) => !isSafe
    case Binary(DivMod(_)) => true
    case Index(base) => !InBounds(base, n.kids)
    case Member(dereference, _, _) => dereference
    case Assign(_) => n.kids != [] && Uniform(n.kids[0])
    case Unary(IncDec(_)) => forall i :: 0 <= i < |n.kids| ==> Uniform(n.kids[i])
    case kind =>
      kind.Assert? || kind.Print? || kind.New? || kind.Delete? || kind.PtrDeref? || kind.Sync? || kind.Alloca?
      || kind.Foreach?
  }

  /** A constant index, all values of which are elements of an array of known size. */
  predicate InBounds(base: Indexed, kids: seq<Node>)
  {
    && |kids| == 2 && kids[1].kind.Const? && base.Array? && base.count > 0
    && forall v :: v in kids[1].kind.vals ==> v >= 0 && v < base.count
  }

  /** Is there a hazard in n, outside of the arguments of calls without a callee? */
  predicate Hazardous(n: Node)
  {
    n.kind != Null
    && (Hazard(n)
        || ((n.kind.Call? ==> n.kind.func.Some?) && exists i :: 0 <= i < |n.kids| && Hazardous(n.kids[i])))
  }

  lemma CheckFindsHazards(n: Node)
    ensures n.kind != Null ==> CheckAllOffSafety(n).1 == !Hazard(n)
    ensures !Hazard(n) && n.kind != Null ==> CheckAllOffSafety(n).0 == (n.kind.Call? ==> n.kind.func.Some?)
  {
    if n.kind.Index? && |n.kids| == 2 && n.kids[1].kind.Const? {
      var vals := n.kids[1].kind.vals;
      assert forall i :: 0 <= i < |vals| ==> vals[i] in vals;
      assert InBounds(n.kind.base, n.kids) == ConstantInBounds(n.kind.base, n.kids[1]);
    }
  }

  /** The verdict is false only if there is a hazard, and if there is one. */
  lemma {:induction false} SafeExact(n: Node)
    ensures Safe(n) <==> !Hazardous(n)
  {
    CheckFindsHazards(n);
    hide CheckAllOffSafety, Hazard;
    forall i | 0 <= i < |n.kids|
      ensures Safe(n.kids[i]) <==> !Hazardous(n.kids[i])
    {
      SafeExact(n.kids[i]);
    }
  }

  class Flag {
    var ok: bool

    constructor ()
      ensures ok
    {
      ok := true;
    }
  }

  /** The walk, with the safety callback before the children and none after them, so
      that every child is written back as it was. */
  method WalkAST(node: Node, data: Flag) returns (r: Node)
    modifies data
    ensures r == node && data.ok == (old(data.ok) && Safe(node))
    ensures data.ok == (old(data.ok) && !Hazardous(node))
    decreases node
  {
    SafeExact(node);
    hide Hazardous;
    if node.kind == Null {
      return node;
    }
    var check := CheckAllOffSafety(node);
    if !check.1 {
      data.ok := false;
    }
    if !check.0 {
      return node;
    }
    var kids := node.kids;
    for i := 0 to |node.kids|
      invariant kids == node.kids
      invariant data.ok == (old(data.ok) && check.1 && forall j :: 0 <= j < i ==> Safe(node.kids[j]))
    {
      var kid := WalkAST(kids[i], data);
      kids := kids[i := kid];
    }
    return node.(kids := kids);
  }

  method SafeToRunWithMaskAllOff(root: Node) returns (safe: bool)
    ensures safe == Safe(root) == !Hazardous(root)
  {
    var data := new Flag();
    var r := WalkAST(root, data);
    return data.ok;
  }

  // ---------- control flow ----------

  /** Is there a break or continue under a varying if in n, outside of inner loops? */
  predicate HasVaryingBreakOrContinue(n: Node, underVarying: bool)
  {
    match n.kind
    case Break => underVarying
    case Continue => underVarying
    case For => false
    case Do => false
    case Foreach => false
    case If(_) =>
      exists i :: 0 <= i < |n.kids|
        && HasVaryingBreakOrContinue(n.kids[i], underVarying || !Uniform(n.kids[0]))
    case _ => exists i :: 0 <= i < |n.kids| && HasVaryingBreakOrContinue(n.kids[i], underVarying)
  }

  /** Is the loop with this test (if any) and body emitted with uniform control flow? */
  predicate UniformLoop(test: Node, body: Node)
  {
    (test.kind == Null || Uniform(test)) && !HasVaryingBreakOrContinue(body, false)
  }

  /** Is the switch emitted with uniform control flow? */
  predicate UniformFlow(n: Node)
  {
    && n.kids != [] && Uniform(n.kids[0])
    && forall i :: 1 <= i < |n.kids| ==> !HasVaryingBreakOrContinue(n.kids[i], false)
  }

  predicate HasUniformLoop(n: Node)
  {
    || (n.kind.For? && |n.kids| == 4 && UniformLoop(n.kids[1], n.kids[3]))
    || (n.kind.Do? && |n.kids| == 2 && UniformLoop(n.kids[1], n.kids[0]))
    || exists i :: 0 <= i < |n.kids| && HasUniformLoop(n.kids[i])
  }

  /** The number of varying constructs around the i-th child of a node at depth d. */
  function KidDepth(n: Node, i: nat, d: nat): nat
  {
    match n.kind
    case If(_) => if i == 0 || n.kids == [] || Uniform(n.kids[0]) then d else d + 1
    case For => if |n.kids| == 4 && UniformLoop(n.kids[1], n.kids[3]) then d else d + 1
    case Do => if |n.kids| == 2 && UniformLoop(n.kids[1], n.kids[0]) then d else d + 1
    case Switch => if i == 0 || UniformFlow(n) then d else d + 1
    case Foreach => d + 1
    case _ => d
  }

  // ---------- names ----------

  /** The names that are declared somewhere in n. */
  function Declared(n: Node): set<string>
  {
    (if n.kind.Decl? then {n.kind.declared.name} else {}) + DeclaredFrom(n, 0)
  }

  function DeclaredFrom(n: Node, from: nat): set<string>
    decreases n, |n.kids| - from
  {
    if from >= |n.kids| then {} else Declared(n.kids[from]) + DeclaredFrom(n, from + 1)
  }

  /** The names whose scope is the i-th child, and those whose scope ends with n. */
  function KidLocals(n: Node, i: nat): set<string>
    requires i < |n.kids|
  {
    match n.kind
    case If(_) => if i > 0 then Declared(n.kids[i]) else {}
    case For => if i == 3 then Declared(n.kids[i]) else {}
    case Do => if i == 0 then Declared(n.kids[i]) else {}
    case _ => {}
  }

  function Locals(n: Node): set<string>
  {
    match n.kind
    case For => if n.kids != [] then Declared(n.kids[0]) else {}
    case Switch => DeclaredFrom(n, 1)
    case _ => {}
  }

  // ---------- stores ----------

  /** What can be assigned to: a variable, a member of it, or an element of it. */
  predicate LValue(n: Node)
  {
    match n.kind
    case Symbol(_) => n.kids == []
    case Member(dereference, part, uniformPart) =>
      !dereference && |n.kids| == 1 && IsVariable(n.kids[0])
      && part < |Base(n).parts| && uniformPart == Base(n).parts[part]
    case Index(base) =>
      |n.kids| == 2 && IsVariable(n.kids[0]) && base == Array(|Base(n).parts|)
    case _ => false
  }

  predicate IsVariable(n: Node)
  {
    n.kind.Symbol? && n.kids == []
  }

  function Base(lvalue: Node): Variable
    requires lvalue.kind.Symbol? || (lvalue.kids != [] && lvalue.kids[0].kind.Symbol?)
  {
    if lvalue.kind.Symbol? then lvalue.kind.variable else lvalue.kids[0].kind.variable
  }

  /** A variable is stored to without a mask where it is as deep as its declaration. */
  predicate Unmasked(v: Variable, d: nat)
  {
    v.plain && v.depth == d
  }

  predicate HasUniformPart(v: Variable)
  {
    exists p :: 0 <= p < |v.parts| && v.parts[p]
  }

  /** Does a store to this lvalue write something although no lane is on?  Uniform
      parts are always written, and an index that differs between lanes is a scatter. */
  predicate Spills(lvalue: Node, d: nat)
    requires LValue(lvalue)
  {
    match lvalue.kind
    case Symbol(v) => Unmasked(v, d) || HasUniformPart(v)
    case Member(_, part, _) => Unmasked(Base(lvalue), d) || Base(lvalue).parts[part]
    case Index(_) =>
      Uniform(lvalue.kids[1]) && (Unmasked(Base(lvalue), d) || HasUniformPart(Base(lvalue)))
  }

  /** The names that the node itself may write although no lane is on. */
  function Own(n: Node, d: nat): set<string>
  {
    match n.kind
    case Decl(v) => {v.name}
    case Return(slot) => if slot.uniform || HasUniformPart(slot) then {slot.name} else {}
    case Assign(_) =>
      if n.kids != [] && LValue(n.kids[0]) && Spills(n.kids[0], d) then {Base(n.kids[0]).name} else {}
    case Unary(IncDec(_)) =>
      if n.kids != [] && LValue(n.kids[0]) && Spills(n.kids[0], d) then {Base(n.kids[0]).name} else {}
    case _ => {}
  }

  /** The names outside of n that n may write although no lane is on, at depth d. */
  function Changes(n: Node, d: nat): set<string>
    decreases n, 1, 0
  {
    Own(n, d) + KidsChange(n, 0, d) - Locals(n)
  }

  function KidsChange(n: Node, from: nat, d: nat): set<string>
    decreases n, 0, |n.kids| - from
  {
    if from >= |n.kids| then {} else KidChanges(n, from, d) + KidsChange(n, from + 1, d)
  }

  function KidChanges(n: Node, i: nat, d: nat): set<string>
    requires i < |n.kids|
    decreases n, 0, 0
  {
    Changes(n.kids[i], KidDepth(n, i, d)) - KidLocals(n, i)
  }

  lemma {:induction false} DeclaredIn(n: Node, from: nat, i: nat)
    requires from <= i < |n.kids|
    ensures Declared(n.kids[i]) <= DeclaredFrom(n, from)
    decreases i - from
  {
    if from < i {
      DeclaredIn(n, from + 1, i);
    }
  }

  lemma {:induction false} KidChangesIn(n: Node, from: nat, i: nat, d: nat)
    requires from <= i < |n.kids|
    ensures KidChanges(n, i, d) <= KidsChange(n, from, d)
    decreases i - from
  {
    if from < i {
      KidChangesIn(n, from + 1, i, d);
    }
  }
}
