/** Hierarchical linking of a target's built-in functions: what the target's own
    library does not define comes from its parent's, and so on up to the root.

    The LLVM linker itself is a parameter of which only a contract is known. */
module BuiltinLinking {
  import opened MaskContext

  // ---------- targets ----------

  datatype Isa =
    | Generic | Sse2 | Sse41 | Sse4 | Avx1 | Avx2 | Avx2vnni
    | Avx512skx | Avx512icl | Avx512spr | Avx512gnr | Avx10dmr | Avx10nvl
    | Neon | Vsx | Rvv | Wasm | Xe

  /** Element width and gang size; the AVX-512 families give the gang size only. */
  datatype Shape =
    | I8x16 | I8x32 | I16x8 | I16x16 | I32x4 | I32x8 | I32x16 | I64x4
    | X4 | X8 | X16 | X16nozmm | X32 | X64
    | I1x4 | I1x8 | I1x16 | I1x32 | I1x64

  datatype Target = Target(isa: Isa, shape: Shape)

  /** The i1 shape of the generic target behind an AVX-512 shape. */
  function MaskShape(s: Shape): Shape
  {
    match s
    case X4 => I1x4
    case X8 => I1x8
    case X16 => I1x16
    case X16nozmm => I1x16
    case X32 => I1x32
    case X64 => I1x64
    case _ => s
  }

  predicate GangOnly(s: Shape)
  {
    s in {X4, X8, X16, X32, X64}
  }

  /** targetParentMap; llvm22 says whether the entries that depend on it are there. */
  function Parent(t: Target, llvm22: bool): Option<Target>
  {
    match t.isa
    case Neon => if t.shape in {I8x16, I8x32, I16x8, I16x16, I32x4, I32x8} then Some(Target(Generic, t.shape)) else None
    case Vsx => if t.shape in {I8x16, I8x32, I16x8, I16x16, I32x4, I32x8} then Some(Target(Generic, t.shape)) else None
    case Rvv => if t.shape == X4 then Some(Target(Generic, I1x4)) else None
    case Avx10dmr => if GangOnly(t.shape) then Some(Target(Avx512gnr, t.shape)) else None
    case Avx10nvl => if llvm22 && GangOnly(t.shape) then Some(Target(Avx512icl, t.shape)) else None
    case Avx512gnr => if GangOnly(t.shape) then Some(Target(Avx512spr, t.shape)) else None
    case Avx512spr => if GangOnly(t.shape) then Some(Target(Avx512icl, t.shape)) else None
    case Avx512icl => if GangOnly(t.shape) || t.shape == X16nozmm then Some(Target(Avx512skx, t.shape)) else None
    case Avx512skx =>
      if GangOnly(t.shape) || t.shape == X16nozmm then Some(Target(Generic, MaskShape(t.shape))) else None
    case Avx2vnni => if t.shape in {I32x4, I32x8, I32x16} then Some(Target(Avx2, t.shape)) else None
    case Avx2 =>
      if t.shape in {I32x4, I32x8, I32x16, I64x4} then Some(Target(Avx1, t.shape))
      else if t.shape in {I16x16, I8x32} then Some(Target(Generic, t.shape)) else None
    case Avx1 =>
      if t.shape in {I32x4, I32x8} then Some(Target(Sse4, t.shape))
      else if t.shape in {I32x16, I64x4} then Some(Target(Generic, t.shape)) else None
    case Sse4 => if t.shape in {I32x4, I32x8, I8x16, I16x8} then Some(Target(Sse41, t.shape)) else None
    case Sse41 =>
      if t.shape in {I32x4, I32x8} then Some(Target(Sse2, t.shape))
      else if t.shape in {I8x16, I16x8} then Some(Target(Generic, t.shape)) else None
    case Sse2 => if t.shape in {I32x4, I32x8} then Some(Target(Generic, t.shape)) else None
    case Wasm => if t.shape == I32x4 then Some(Target(Generic, I32x4)) else None
    case _ => None
  }

  /** An upper bound on the number of ancestors. */
  function Rank(isa: Isa): nat
  {
    match isa
    case Generic => 0
    case Sse2 => 1
    case Sse41 => 2
    case Sse4 => 3
    case Avx1 => 4
    case Avx2 => 5
    case Avx2vnni => 6
    case Avx512skx => 1
    case Avx512icl => 2
    case Avx512spr => 3
    case Avx512gnr => 4
    case Avx10dmr => 5
    case Avx10nvl => 3
    case _ => 1
  }

  /** The parent chain, from the target to its root; the map has no cycle. */
  function Chain(t: Target, llvm22: bool): (chain: seq<Target>)
    ensures chain != [] && chain[0] == t && |chain| <= Rank(t.isa) + 1 <= 7
    ensures forall i :: 0 <= i < |chain| - 1 ==> Parent(chain[i], llvm22) == Some(chain[i + 1])
    ensures Parent(chain[|chain| - 1], llvm22).None?
    decreases Rank(t.isa)
  {
    match Parent(t, llvm22)
    case None => [t]
    case Some(p) => [t] + Chain(p, llvm22)
  }

  lemma ChainStep(t: Target, llvm22: bool, i: nat)
    requires i < |Chain(t, llvm22)|
    ensures Chain(t, llvm22)[0] == t && |Chain(t, llvm22)| <= 7
    ensures Parent(Chain(t, llvm22)[i], llvm22)
         == if i < |Chain(t, llvm22)| - 1 then Some(Chain(t, llvm22)[i + 1]) else None
  {
  }

  /** The instruction sets whose libraries are linked for a target, in order. */
  function Lineage(t: Target, llvm22: bool): seq<Isa>
  {
    if t.shape in {X4, X8, X16, X32, X64} then
      match t.isa
      case Avx10dmr => [Avx10dmr, Avx512gnr, Avx512spr, Avx512icl, Avx512skx, Generic]
      case Avx10nvl => if llvm22 then [Avx10nvl, Avx512icl, Avx512skx, Generic] else [Avx10nvl]
      case Avx512gnr => [Avx512gnr, Avx512spr, Avx512icl, Avx512skx, Generic]
      case Avx512spr => [Avx512spr, Avx512icl, Avx512skx, Generic]
      case Avx512icl => [Avx512icl, Avx512skx, Generic]
      case Avx512skx => [Avx512skx, Generic]
      case Rvv => if t.shape == X4 then [Rvv, Generic] else [Rvv]
      case isa => [isa]
    else if t.shape in {I32x4, I32x8} then
      match t.isa
      case Avx2vnni => [Avx2vnni, Avx2, Avx1, Sse4, Sse41, Sse2, Generic]
      case Avx2 => [Avx2, Avx1, Sse4, Sse41, Sse2, Generic]
      case Avx1 => [Avx1, Sse4, Sse41, Sse2, Generic]
      case Sse4 => [Sse4, Sse41, Sse2, Generic]
      case Sse41 => [Sse41, Sse2, Generic]
      case Sse2 => [Sse2, Generic]
      case Neon => [Neon, Generic]
      case Vsx => [Vsx, Generic]
      case Wasm => if t.shape == I32x4 then [Wasm, Generic] else [Wasm]
      case isa => [isa]
    else
      match (t.isa, t.shape)
      case (Avx2vnni, I32x16) => [Avx2vnni, Avx2, Avx1, Generic]
      case (Avx2, I32x16) => [Avx2, Avx1, Generic]
      case (Avx1, I32x16) => [Avx1, Generic]
      case (Avx2, I64x4) => [Avx2, Avx1, Generic]
      case (Avx1, I64x4) => [Avx1, Generic]
      case (Avx2, I16x16) => [Avx2, Generic]
      case (Avx2, I8x32) => [Avx2, Generic]
      case (Sse4, I8x16) => [Sse4, Sse41, Generic]
      case (Sse4, I16x8) => [Sse4, Sse41, Generic]
      case (Sse41, I8x16) => [Sse41, Generic]
      case (Sse41, I16x8) => [Sse41, Generic]
      case (Avx512icl, X16nozmm) => [Avx512icl, Avx512skx, Generic]
      case (Avx512skx, X16nozmm) => [Avx512skx, Generic]
      case (isa, shape) =>
        if isa in {Neon, Vsx} && shape in {I8x16, I8x32, I16x8, I16x16} then [isa, Generic] else [isa]
  }

  function Isas(chain: seq<Target>): seq<Isa>
  {
    seq(|chain|, i requires 0 <= i < |chain| => chain[i].isa)
  }

  /** No ancestor is skipped, and all but the generic one have the target's shape. */
  lemma {:induction false} ChainIsLineage(t: Target, llvm22: bool)
    ensures Isas(Chain(t, llvm22)) == Lineage(t, llvm22)
    ensures forall a :: a in Chain(t, llvm22) && a.isa != Generic ==> a.shape == t.shape
    decreases Rank(t.isa)
  {
    ChainUnfolds(t, llvm22);
    hide Parent, Rank, Lineage, Chain;
    match Parent(t, llvm22)
    case None =>
      LineageEnds(t, llvm22);
      assert Isas([t]) == [t.isa];
    case Some(p) =>
      RanksDown(t, llvm22, p);
      ChainIsLineage(p, llvm22);
      LineageStep(t, llvm22, p);
      assert Isas([t] + Chain(p, llvm22)) == [t.isa] + Isas(Chain(p, llvm22));
      assert forall a :: a in [t] + Chain(p, llvm22) ==> a == t || a in Chain(p, llvm22);
      ShapeStays(t, llvm22, p);
  }

  lemma ChainUnfolds(t: Target, llvm22: bool)
    ensures Chain(t, llvm22) ==
        match Parent(t, llvm22)
        case None => [t]
        case Some(p) => [t] + Chain(p, llvm22)
  {
    hide Parent, Rank;
  }

  lemma ShapeStays(t: Target, llvm22: bool, p: Target)
    requires Parent(t, llvm22) == Some(p)
    requires forall a :: a in Chain(p, llvm22) && a.isa != Generic ==> a.shape == p.shape
    ensures forall a :: a in Chain(p, llvm22) && a.isa != Generic ==> a.shape == t.shape
  {
    LineageStep(t, llvm22, p);
    if p.isa == Generic {
      ChainUnfolds(p, llvm22);
    }
  }

  lemma RanksDown(t: Target, llvm22: bool, p: Target)
    requires Parent(t, llvm22) == Some(p)
    ensures Rank(p.isa) < Rank(t.isa)
  {
  }

  lemma LineageEnds(t: Target, llvm22: bool)
    requires Parent(t, llvm22).None?
    ensures Lineage(t, llvm22) == [t.isa]
  {
  }

  lemma LineageStep(t: Target, llvm22: bool, p: Target)
    requires Parent(t, llvm22) == Some(p)
    ensures Lineage(t, llvm22) == [t.isa] + Lineage(p, llvm22)
    ensures p.isa != Generic ==> p.shape == t.shape
  {
  }

  function Root(t: Target, llvm22: bool): Target
  {
    var chain := Chain(t, llvm22);
    chain[|chain| - 1]
  }

  /** The gang size that a shape stands for. */
  function GangSize(s: Shape): nat
  {
    match s
    case I64x4 => 4
    case I32x4 => 4
    case X4 => 4
    case I1x4 => 4
    case I16x8 => 8
    case I32x8 => 8
    case X8 => 8
    case I1x8 => 8
    case I8x32 => 32
    case X32 => 32
    case I1x32 => 32
    case X64 => 64
    case I1x64 => 64
    case _ => 16
  }

  /** The generic targets have an element width, or a mask of one bit for each lane. */
  function GenericShape(s: Shape): Shape
  {
    if s == X4 then I1x4 else if s == X8 then I1x8 else if s == X16 || s == X16nozmm then I1x16
    else if s == X32 then I1x32 else if s == X64 then I1x64 else s
  }

  lemma ParentShape(t: Target, llvm22: bool, p: Target)
    requires Parent(t, llvm22) == Some(p)
    ensures if p.isa == Generic then p.shape == GenericShape(t.shape) else p.shape == t.shape
  {
  }

  /** A target with a parent ends up at a generic target of its own gang size, so the
      functions that come from there fit its vectors. */
  lemma {:induction false} RootIsGeneric(t: Target, llvm22: bool)
    ensures GangSize(Root(t, llvm22).shape) == GangSize(t.shape)
    ensures Parent(t, llvm22).Some? ==> Root(t, llvm22) == Target(Generic, GenericShape(t.shape))
    decreases Rank(t.isa)
  {
    match Parent(t, llvm22) {
      case None =>
      case Some(p) =>
        RootIsGeneric(p, llvm22);
        RootAbove(t, llvm22, p);
        ParentKeepsGangSize(t, llvm22, p);
        ParentHasParent(t, llvm22, p);
        ParentShape(t, llvm22, p);
        if Parent(p, llvm22).None? {
          RootOfRoot(p, llvm22);
        }
    }
  }

  lemma RootAbove(t: Target, llvm22: bool, p: Target)
    requires Parent(t, llvm22) == Some(p)
    ensures Root(t, llvm22) == Root(p, llvm22)
  {
  }

  lemma ParentKeepsGangSize(t: Target, llvm22: bool, p: Target)
    requires Parent(t, llvm22) == Some(p)
    ensures GangSize(p.shape) == GangSize(t.shape)
  {
    hide Chain, Root, Rank;
  }

  /** A parent that is not generic has a parent itself. */
  lemma ParentHasParent(t: Target, llvm22: bool, p: Target)
    requires Parent(t, llvm22) == Some(p)
    ensures Parent(p, llvm22).Some? || p.isa == Generic
  {
    hide Chain, Root, Rank, GangSize;
  }

  lemma RootOfRoot(p: Target, llvm22: bool)
    requires Parent(p, llvm22).None?
    ensures Root(p, llvm22) == p
  {
    hide Parent, Rank;
  }

  // ---------- modules ----------

  type Name = string

  /** A module: its definitions with the names that each refers to, and the names it
      only declares. */
  datatype Module = Module(defs: map<Name, set<Name>>, decls: set<Name>)

  ghost predicate Uses(m: Module, n: Name)
  {
    exists d :: d in m.defs && n in m.defs[d]
  }

  /** Whatever is used is there, as a definition or as a declaration. */
  ghost predicate Closed(m: Module)
  {
    m.decls !! m.defs.Keys && forall n :: Uses(m, n) ==> n in m.defs || n in m.decls
  }

  ghost predicate Unresolved(m: Module, symbols: set<Name>, n: Name)
  {
    n in m.decls && Uses(m, n) && n in symbols
  }

  predicate StartsWithLLVM(n: Name)
  {
    "llvm." <= n
  }

  /** What is assumed of linking only what is needed: the module keeps what it has,
      takes only from the library, and takes the definition of every declaration that
      the library can define and, transitively, of what the definitions it takes use. */
  ghost predicate Links(m: Module, lib: Module, m1: Module)
  {
    && Closed(m1)
    && (forall n :: n in m.defs ==> n in m1.defs && m1.defs[n] == m.defs[n])
    && (forall n :: n in m1.defs && n !in m.defs ==> n in lib.defs && m1.defs[n] == lib.defs[n])
    && (forall n :: n in m.decls && n in lib.defs ==> n in m1.defs)
    && (forall d, n :: d in m1.defs && d !in m.defs && n in m1.defs[d] && n in lib.defs ==> n in m1.defs)
  }

  type Linker = (Module, Module) -> Module

  ghost predicate LinkerOK(link: Linker)
  {
    forall m, lib :: Closed(m) && Closed(lib) ==> Links(m, lib, link(m, lib))
  }

  /** A linker that takes the whole library. */
  function LinkAll(m: Module, lib: Module): Module
  {
    Module(lib.defs + m.defs, (m.decls + lib.decls) - lib.defs.Keys - m.defs.Keys)
  }

  /** It meets the contract, so the contract can be met. */
  lemma LinkAllIsOK()
    ensures LinkerOK(LinkAll)
  {
    forall m: Module, lib: Module | Closed(m) && Closed(lib)
      ensures Links(m, lib, LinkAll(m, lib))
    {
      var m1 := LinkAll(m, lib);
      forall n | Uses(m1, n)
        ensures n in m1.defs || n in m1.decls
      {
        var d :| d in m1.defs && n in m1.defs[d];
        assert if d in m.defs then Uses(m, n) else Uses(lib, n);
      }
    }
  }

  // ---------- linking ----------

  /** The libraries, found by target. */
  type Registry = map<Target, Module>

  /** Every target of the chain has a well-formed library. */
  ghost predicate LibrariesPresent(libs: Registry, t: Target, llvm22: bool)
  {
    forall i :: 0 <= i < |Chain(t, llvm22)| ==> Chain(t, llvm22)[i] in libs && Closed(libs[Chain(t, llvm22)[i]])
  }

  /** The functions that are to be resolved: those defined at the root of the chain. */
  function SymbolsToResolve(root: Module): set<Name>
  {
    set n | n in root.defs && !StartsWithLLVM(n)
  }

  method CollectAllDefinedFunctions(t: Target, libs: Registry, llvm22: bool) returns (defined: set<Name>)
    requires LibrariesPresent(libs, t, llvm22)
    ensures Root(t, llvm22) in libs && defined == SymbolsToResolve(libs[Root(t, llvm22)])
    ensures forall n :: n in defined <==> n in libs[Root(t, llvm22)].defs && !("llvm." <= n)
  {
    ChainStep(t, llvm22, 0);
    hide Parent, Rank, Chain, Closed;
    var rootTarget := t;
    ghost var i := 0;
    var parent := Parent(t, llvm22);
    while parent.Some?
      invariant 0 <= i < |Chain(t, llvm22)| && rootTarget == Chain(t, llvm22)[i] && parent == Parent(rootTarget, llvm22)
      decreases |Chain(t, llvm22)| - i
    {
      ChainStep(t, llvm22, i);
      rootTarget := parent.value;
      parent := Parent(rootTarget, llvm22);
      i := i + 1;
    }
    ChainStep(t, llvm22, i);
    defined := set n | n in libs[rootTarget].defs && !StartsWithLLVM(n);
  }

  /** Looks for a declaration that is used and should have been resolved. */
  method HasUnresolvedSymbols(m: Module, symbols: set<Name>) returns (found: Option<Name>)
    ensures found.Some? ==> Unresolved(m, symbols, found.value)
    ensures found.None? ==> forall n :: !Unresolved(m, symbols, n)
  {
    var rest := m.decls;
    while rest != {}
      invariant rest <= m.decls && forall n :: n in m.decls - rest ==> !Unresolved(m, symbols, n)
      decreases rest
    {
      var n :| n in rest;
      if n in symbols && (exists d :: d in m.defs && n in m.defs[d]) {
        return Some(n);
      }
      rest := rest - {n};
    }
    return None;
  }

  /** Links one target's library into m; unused declarations are moved by hand first. */
  method LinkBuiltinsForTarget(m: Module, lib: Module, builtins: set<Name>, link: Linker)
    returns (m1: Module, builtins1: set<Name>)
    requires LinkerOK(link) && Closed(m) && Closed(lib)
    ensures Closed(m1)
    ensures forall n :: n in m.defs ==> n in m1.defs && m1.defs[n] == m.defs[n]
    ensures forall n :: n in m1.defs && n !in m.defs ==> n in lib.defs && m1.defs[n] == lib.defs[n]
    ensures forall n :: n in m.decls && n in lib.defs ==> n in m1.defs
    ensures forall n :: Uses(m1, n) && n in lib.defs ==> n in m1.defs
    ensures builtins1 == builtins + set n | n in lib.defs.Keys + lib.decls && !StartsWithLLVM(n)
  {
    builtins1 := builtins + set n | n in lib.defs.Keys + lib.decls && !StartsWithLLVM(n);
    var unused := set n | n in lib.decls && !exists d :: d in lib.defs && n in lib.defs[d];
    var m0 := m.(decls := m.decls + (unused - m.defs.Keys));
    assert forall n :: Uses(m0, n) <==> Uses(m, n);
    m1 := link(m0, lib);
    forall n | Uses(m1, n) && n in lib.defs
      ensures n in m1.defs
    {
      var d :| d in m1.defs && n in m1.defs[d];
      if d in m.defs {
        assert Uses(m, n);
      }
    }
  }

  /** How linking ended. */
  datatype Linked = Linked(m: Module, internal: set<Name>, error: Option<Name>, rounds: nat)

  method LinkTargetBuiltins(m: Module, t: Target, libs: Registry, llvm22: bool, link: Linker) returns (r: Linked)
    requires LinkerOK(link) && Closed(m) && LibrariesPresent(libs, t, llvm22)
    ensures r.error.None? && r.rounds <= |Chain(t, llvm22)|
    ensures forall n :: Uses(r.m, n) && n in libs[Root(t, llvm22)].defs && !("llvm." <= n) ==> n in r.m.defs
    ensures Closed(r.m) && forall n :: n in m.defs ==> n in r.m.defs && r.m.defs[n] == m.defs[n]
    ensures forall n :: n in r.m.defs && n !in m.defs ==> FromChain(r.m, libs, t, llvm22, r.rounds, n)
    ensures forall n :: n in m.decls && n in libs[t].defs ==> n in r.m.defs && r.m.defs[n] == libs[t].defs[n]
    ensures forall n :: n in r.m.defs && n !in m.defs && !StartsWithLLVM(n) ==> n in r.internal
    ensures r.internal <= r.m.defs.Keys
  {
    ChainStep(t, llvm22, 0);
    hide Parent, Rank, Chain, Closed, FromChain, LinkerOK, Unresolved, SymbolsToResolve, Uses;
    ghost var chain := Chain(t, llvm22);
    var symbolsToResolve := CollectAllDefinedFunctions(t, libs, llvm22);
    var target, rounds, error := t, 1, None;
    assert chain[0] == t;
    var m1, targetBuiltins := LinkBuiltinsForTarget(m, libs[t], {}, link);
    ghost var first := m1;
    StartFromChain(m, m1, libs, t, llvm22);
    var unresolved := HasUnresolvedSymbols(m1, symbolsToResolve);
    while unresolved.Some?
      invariant 1 <= rounds <= |chain| && target == chain[rounds - 1] && error.None?
      invariant Closed(m1)
      invariant forall n :: n in first.defs ==> n in m1.defs && m1.defs[n] == first.defs[n]
      invariant forall n :: n in m1.defs && n !in m.defs ==> FromChain(m1, libs, t, llvm22, rounds, n)
      invariant forall n :: n in m1.defs && n !in m.defs && !StartsWithLLVM(n) ==> n in targetBuiltins
      invariant forall n :: Uses(m1, n) && n in libs[target].defs ==> n in m1.defs
      invariant unresolved.Some? ==> Unresolved(m1, symbolsToResolve, unresolved.value)
      invariant unresolved.None? ==> forall n :: !Unresolved(m1, symbolsToResolve, n)
      decreases |chain| - rounds
    {
      ChainStep(t, llvm22, rounds - 1);
      NotAtRoot(m1, libs, t, llvm22, rounds, unresolved.value);
      var parent := Parent(target, llvm22);
      if parent.None? {
        error := unresolved;  // Unresolved symbol in target bitcode
        break;
      }
      target := parent.value;
      rounds := rounds + 1;
      ghost var m0 := m1;
      m1, targetBuiltins := LinkBuiltinsForTarget(m1, libs[target], targetBuiltins, link);
      StillFromChain(m, m0, m1, libs, t, llvm22, rounds);
      unresolved := HasUnresolvedSymbols(m1, symbolsToResolve);
    }
    var internal := set n | n in m1.defs && n in targetBuiltins;
    r := Linked(m1, internal, error, rounds);
    AllResolved(m1, libs[Root(t, llvm22)]);
  }

  lemma AllResolved(m: Module, root: Module)
    requires Closed(m) && forall n :: !Unresolved(m, SymbolsToResolve(root), n)
    ensures forall n :: Uses(m, n) && n in root.defs && !("llvm." <= n) ==> n in m.defs
  {
    forall n | Uses(m, n) && n in root.defs && !("llvm." <= n)
      ensures n in m.defs
    {
      assert !Unresolved(m, SymbolsToResolve(root), n);
    }
  }

  /** n is defined as in the library of one of the first `rounds` targets of the chain. */
  ghost predicate FromChain(m: Module, libs: Registry, t: Target, llvm22: bool, rounds: nat, n: Name)
    requires LibrariesPresent(libs, t, llvm22) && rounds <= |Chain(t, llvm22)|
  {
    n in m.defs && exists i :: 0 <= i < rounds && DefinedBy(m, libs[Chain(t, llvm22)[i]], n)
  }

  ghost predicate DefinedBy(m: Module, lib: Module, n: Name)
  {
    n in m.defs && n in lib.defs && m.defs[n] == lib.defs[n]
  }

  lemma StartFromChain(m: Module, m1: Module, libs: Registry, t: Target, llvm22: bool)
    requires LibrariesPresent(libs, t, llvm22)
    requires t in libs && forall n :: n in m1.defs && n !in m.defs ==> DefinedBy(m1, libs[t], n)
    ensures forall n :: n in m1.defs && n !in m.defs ==> FromChain(m1, libs, t, llvm22, 1, n)
  {
    assert Chain(t, llvm22)[0] == t;
  }

  lemma StillFromChain(m: Module, m0: Module, m1: Module, libs: Registry, t: Target, llvm22: bool, rounds: nat)
    requires LibrariesPresent(libs, t, llvm22) && 1 < rounds <= |Chain(t, llvm22)|
    requires forall n :: n in m0.defs && n !in m.defs ==> FromChain(m0, libs, t, llvm22, rounds - 1, n)
    requires forall n :: n in m0.defs ==> n in m1.defs && m1.defs[n] == m0.defs[n]
    requires forall n :: n in m1.defs && n !in m0.defs ==> DefinedBy(m1, libs[Chain(t, llvm22)[rounds - 1]], n)
    ensures forall n :: n in m1.defs && n !in m.defs ==> FromChain(m1, libs, t, llvm22, rounds, n)
  {
    hide Parent, Rank, Chain, Closed;
    forall n | n in m1.defs && n !in m.defs
      ensures FromChain(m1, libs, t, llvm22, rounds, n)
    {
      if n in m0.defs {
        var i :| 0 <= i < rounds - 1 && DefinedBy(m0, libs[Chain(t, llvm22)[i]], n);
        assert DefinedBy(m1, libs[Chain(t, llvm22)[i]], n);
      }
    }
  }

  /** Nothing stays unresolved once the root is linked, so the error is never reached. */
  lemma NotAtRoot(m1: Module, libs: Registry, t: Target, llvm22: bool, rounds: nat, n: Name)
    requires LibrariesPresent(libs, t, llvm22) && 1 <= rounds <= |Chain(t, llvm22)| && Closed(m1)
    requires Unresolved(m1, SymbolsToResolve(libs[Root(t, llvm22)]), n)
    requires forall x :: Uses(m1, x) && x in libs[Chain(t, llvm22)[rounds - 1]].defs ==> x in m1.defs
    ensures Parent(Chain(t, llvm22)[rounds - 1], llvm22).Some? && rounds < |Chain(t, llvm22)|
  {
    hide Parent, Rank, Chain, Uses;
    ChainStep(t, llvm22, rounds - 1);
    assert n !in m1.defs;
  }
}
