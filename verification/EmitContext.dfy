/** FunctionEmitContext as it is: an object whose methods update its bookkeeping in
    place and run the mask code they emit along one path.  Lane masks live in
    allocated cells reached through addresses that are saved and restored, and the
    tables of a switch are allocated and deleted; Abs() reads all of this back as a
    MaskContext.Ctx, and every method is proved to do to Abs() what the function of
    the same name does. */
module EmitContext {
  import opened Lang
  import opened MaskContext
  import opened StackDiscipline
  import opened MaskedRun

  /** Where break and continue go, and the cells that record who went. */
  datatype Targets = Targets(
    breakTarget: Option<Label>,
    continueTarget: Option<Label>,
    breakLanes: Option<nat>,     // address of a mask cell, or null
    continueLanes: Option<nat>,
    blockEntryMask: Option<Mask>)

  /** What SwitchInst sets up for the labels of a switch. */
  datatype Labels = Labels(
    switchExpr: Option<SwitchValue>,
    defaultBlock: Option<Label>,
    caseBlocks: Option<nat>,     // address of a table, or null
    nextBlocks: Option<nat>,
    switchConditionWasUniform: bool)

  const NoTargets := Targets(None, None, None, None, None)

  const NoLabels := Labels(None, None, None, None, false)

  datatype CFInfo = CFInfo(
    kind: FrameKind, isUniform: bool, savedMask: Mask, savedTargets: Targets, savedLabels: Labels)

  datatype Bookkeeping = Bookkeeping(targets: Targets, labels: Labels, frames: seq<CFInfo>, tables: set<nat>)

  /** What SwitchInst allocates. */
  datatype Table = Cases(cases: CaseTable) | Next(next: NextTable)

  // ---------- addresses ----------

  function Ref(a: Option<nat>): set<nat>
  {
    if a.Some? then {a.value} else {}
  }

  function CellsOf(t: Targets): set<nat>
  {
    Ref(t.breakLanes) + Ref(t.continueLanes)
  }

  function TablesOf(l: Labels): set<nat>
  {
    Ref(l.caseBlocks) + Ref(l.nextBlocks)
  }

  function SavedCells(f: CFInfo): set<nat>
  {
    CellsOf(f.savedTargets)
  }

  function SavedTables(f: CFInfo): set<nat>
  {
    TablesOf(f.savedLabels)
  }

  /** The tables that the frames will need again. */
  function TablesBelow(stack: seq<CFInfo>): set<nat>
  {
    if stack == [] then {} else TablesBelow(stack[..|stack| - 1]) + SavedTables(stack[|stack| - 1])
  }

  ghost predicate TargetsOK(t: Targets, width: nat)
  {
    && (forall a :: a in CellsOf(t) ==> a < width)
    && (t.breakLanes.Some? ==> t.breakLanes != t.continueLanes)
  }

  ghost predicate LabelsOK(l: Labels, tables: map<nat, Table>)
  {
    && (l.caseBlocks.Some? ==> l.caseBlocks.value in tables && tables[l.caseBlocks.value].Cases?)
    && (l.nextBlocks.Some? ==> l.nextBlocks.value in tables && tables[l.nextBlocks.value].Next?)
  }

  /** A frame owns what its kind saves, and what it owns is allocated. */
  ghost predicate FrameOK(f: CFInfo, width: nat, tables: map<nat, Table>)
  {
    && (f.kind == IfFrame ==> SavedCells(f) == {})
    && (f.kind != SwitchFrame ==> SavedTables(f) == {})
    && TargetsOK(f.savedTargets, width) && LabelsOK(f.savedLabels, tables)
  }

  /** Older frames hold older addresses, so no two owners share one. */
  ghost predicate Separate(stack: seq<CFInfo>, cells: set<nat>, tables: set<nat>)
  {
    && (forall i, a, b :: 0 <= i < |stack| && a in SavedCells(stack[i]) && b in cells ==> a < b)
    && (forall i, a, b :: 0 <= i < |stack| && a in SavedTables(stack[i]) && b in tables ==> a < b)
    && (forall i, j, a, b :: 0 <= i < j < |stack| && a in SavedCells(stack[i]) && b in SavedCells(stack[j]) ==> a < b)
    && (forall i, j, a, b :: 0 <= i < j < |stack| && a in SavedTables(stack[i]) && b in SavedTables(stack[j]) ==> a < b)
  }

  /** No two owners share an address, and exactly the tables that someone still
      needs are allocated. */
  ghost predicate LinksOK(
    stack: seq<CFInfo>, targets: Targets, labels: Labels, width: nat, tables: map<nat, Table>, nextTable: nat)
  {
    && TargetsOK(targets, width) && LabelsOK(labels, tables)
    && (forall i :: 0 <= i < |stack| ==> FrameOK(stack[i], width, tables))
    && Separate(stack, CellsOf(targets), TablesOf(labels))
    && tables.Keys == TablesBelow(stack) + TablesOf(labels)
    && (forall a :: a in tables ==> a < nextTable)
  }

  function Cell(a: Option<nat>, cells: seq<Mask>): Option<Mask>
  {
    if a.Some? && a.value < |cells| then Some(cells[a.value]) else None
  }

  function CasesAt(a: Option<nat>, tables: map<nat, Table>): Option<CaseTable>
  {
    if a.Some? && a.value in tables && tables[a.value].Cases? then Some(tables[a.value].cases) else None
  }

  function NextAt(a: Option<nat>, tables: map<nat, Table>): Option<NextTable>
  {
    if a.Some? && a.value in tables && tables[a.value].Next? then Some(tables[a.value].next) else None
  }

  function AbsLabels(l: Labels, tables: map<nat, Table>): SwitchState
  {
    SwitchState(l.switchExpr, l.defaultBlock, CasesAt(l.caseBlocks, tables), NextAt(l.nextBlocks, tables),
                l.switchConditionWasUniform)
  }

  function AbsFrame(f: CFInfo, cells: seq<Mask>, tables: map<nat, Table>): Frame
  {
    Frame(f.kind, f.isUniform, f.savedMask, f.savedTargets.breakTarget, f.savedTargets.continueTarget,
          Cell(f.savedTargets.breakLanes, cells), Cell(f.savedTargets.continueLanes, cells),
          f.savedTargets.blockEntryMask, AbsLabels(f.savedLabels, tables))
  }

  function AbsStack(stack: seq<CFInfo>, cells: seq<Mask>, tables: map<nat, Table>): seq<Frame>
  {
    if stack == [] then []
    else AbsStack(stack[..|stack| - 1], cells, tables) + [AbsFrame(stack[|stack| - 1], cells, tables)]
  }

  /** Every mask is a vector of the gang's width. */
  ghost predicate OfWidth(width: nat, m: Mask, cells: seq<Mask>, stack: seq<CFInfo>)
  {
    && m <= Gang(width)
    && (forall a :: 0 <= a < |cells| ==> cells[a] <= Gang(width))
    && (forall i :: 0 <= i < |stack| ==> stack[i].savedMask <= Gang(width))
  }

  /** What the assertions at a label demand. */
  ghost predicate LabelReady(sw: SwitchState, block: Option<Label>, checkMask: bool)
  {
    && block.Some? && sw.cases.Some? && sw.next.Some?
    && (!sw.wasUniform ==> sw.expr.Some? && sw.expr.value.LaneValues?)
    && (checkMask && !sw.wasUniform ==> block in sw.next.value)
  }

  class FunctionEmitContext {
    // emit-time bookkeeping
    var functionMaskValue: Option<Mask>  // None: the function takes no mask
    var targets: Targets
    var labels: Labels
    var controlFlowInfo: seq<CFInfo>
    var control: Control

    // run-time memory
    var internalMask: Mask
    var fullMaskMemory: Mask  // what __mask reads
    var returnedLanes: Mask
    var laneCells: seq<Mask>
    var tables: map<nat, Table>
    var nextTable: nat
    var vars: seq<Store>
    var returnValues: seq<int>
    var uniforms: Uniforms
    ghost var lost: Mask

    ghost predicate Valid()
      reads this
    {
      && (functionMaskValue.Some? ==> fullMaskMemory == internalMask * functionMaskValue.value)
      && OfWidth(|vars|, internalMask, laneCells, controlFlowInfo)
      && LinksOK(controlFlowInfo, targets, labels, |laneCells|, tables, nextTable)
    }

    ghost function Abs(): Ctx
      reads this
    {
      Ctx(if functionMaskValue.Some? then functionMaskValue.value else Gang(|vars|),
          internalMask, returnedLanes, targets.breakTarget, targets.continueTarget,
          Cell(targets.breakLanes, laneCells), Cell(targets.continueLanes, laneCells), targets.blockEntryMask,
          AbsLabels(labels, tables), AbsStack(controlFlowInfo, laneCells, tables),
          control, uniforms, vars, returnValues, lost)
    }

    /** Everything that an end has to put back as its start found it: targets, lane
        mask pointers, block-entry mask, labels, frames and allocated tables. */
    ghost function Books(): Bookkeeping
      reads this
    {
      Bookkeeping(targets, labels, controlFlowInfo, tables.Keys)
    }

    constructor (functionMask: Option<Mask>, vars: seq<Store>, returnValues: seq<int>, uniforms: Uniforms)
      ensures Valid() && controlFlowInfo == [] && tables == map[]
      ensures
        var mask := if functionMask.Some? then functionMask.value else Gang(|vars|);
        Abs() == Entry(mask, vars, returnValues, uniforms)
    {
      functionMaskValue := functionMask;
      targets, labels := NoTargets, NoLabels;
      controlFlowInfo, control := [], Here;
      internalMask := Gang(|vars|);
      fullMaskMemory := if functionMask.Some? then Gang(|vars|) * functionMask.value else {};
      returnedLanes, laneCells, tables, nextTable := {}, [], map[], 0;
      this.vars, this.returnValues, this.uniforms := vars, returnValues, uniforms;
      lost := {};
    }

    // ---------- masks ----------

    method GetFunctionMask() returns (m: Mask)
      requires Valid()
      ensures m == Abs().functionMask
    {
      m := if functionMaskValue.Some? then functionMaskValue.value else Gang(|vars|);
    }

    method GetFullMask() returns (m: Mask)
      requires Valid()
      ensures m == FullMask(Abs())
      ensures functionMaskValue.Some? ==> m == fullMaskMemory
    {
      hide LinksOK, AbsStack;
      m := if functionMaskValue.Some? then internalMask * functionMaskValue.value else internalMask;
    }

    method SetInternalMask(value: Mask)
      requires Valid() && value <= Gang(|vars|)
      modifies this`internalMask, this`fullMaskMemory
      ensures Valid() && Abs() == MaskContext.SetInternalMask(old(Abs()), value)
    {
      hide LinksOK, AbsStack;
      internalMask := value;
      // so that __mask returns the right value
      if functionMaskValue.Some? {
        fullMaskMemory := internalMask * functionMaskValue.value;
      }
    }

    method SetInternalMaskAnd(oldMask: Mask, test: Mask)
      requires Valid() && oldMask <= Gang(|vars|)
      modifies this`internalMask, this`fullMaskMemory
      ensures Valid() && Abs() == MaskContext.SetInternalMaskAnd(old(Abs()), oldMask, test)
    {
      hide LinksOK, AbsStack;
      SetInternalMask(oldMask * test);
    }

    method SetInternalMaskAndNot(oldMask: Mask, test: Mask)
      requires Valid() && oldMask <= Gang(|vars|)
      modifies this`internalMask, this`fullMaskMemory
      ensures Valid() && Abs() == MaskContext.SetInternalMaskAndNot(old(Abs()), oldMask, test)
    {
      hide LinksOK, AbsStack;
      var notTest := Gang(|vars|) - test;
      SetInternalMask(oldMask * notTest);
    }

    method SetBlockEntryMask(value: Mask)
      requires Valid()
      modifies this`targets
      ensures Valid() && Abs() == MaskContext.SetBlockEntryMask(old(Abs()), value)
    {
      hide AbsStack, Separate, FrameOK, TablesBelow;
      targets := targets.(blockEntryMask := Some(value));
    }

    method RestoreMaskGivenReturns(oldMask: Mask)
      requires Valid() && oldMask <= Gang(|vars|)
      modifies this`internalMask, this`fullMaskMemory
      ensures Valid() && Abs() == MaskContext.RestoreMaskGivenReturns(old(Abs()), oldMask)
    {
      hide LinksOK, AbsStack;
      if control != Here {
        return;
      }
      var notReturned := Gang(|vars|) - returnedLanes;
      SetInternalMask(oldMask * notReturned);
    }

    /** Loads a mask cell; a null pointer counts as all off. */
    method LoadLanes(a: Option<nat>) returns (m: Mask)
      requires Valid() && (a == targets.breakLanes || a == targets.continueLanes)
      ensures m == Lanes(Cell(a, laneCells)) && m <= Gang(|vars|)
    {
      assert a.Some? ==> a.value in CellsOf(targets);
      m := {};
      if a.Some? {
        m := laneCells[a.value];
      }
    }

    /** Stores into the current break or continue cell. */
    method StoreLanes(a: nat, m: Mask)
      requires Valid() && a in CellsOf(targets) && m <= Gang(|vars|)
      modifies this`laneCells
      ensures Valid()
      ensures targets.breakLanes == Some(a) ==> Abs() == old(Abs()).(breakLanes := Some(m))
      ensures targets.continueLanes == Some(a) ==> Abs() == old(Abs()).(continueLanes := Some(m))
    {
      assert AbsStack(controlFlowInfo, laneCells[a := m], tables) == AbsStack(controlFlowInfo, laneCells, tables) by {
        CellsStaySame(laneCells[a := m]);
      }
      hide AbsStack, TablesBelow, Separate, FrameOK;
      laneCells := laneCells[a := m];
    }

    /** Storing into a cell that no frame has saved leaves every frame as it reads. */
    lemma CellsStaySame(cells: seq<Mask>)
      requires Valid() && |laneCells| <= |cells|
      requires forall a :: 0 <= a < |laneCells| && laneCells[a] != cells[a] ==>
          a in CellsOf(targets)
      ensures AbsStack(controlFlowInfo, cells, tables) == AbsStack(controlFlowInfo, laneCells, tables)
    {
      forall i | 0 <= i < |controlFlowInfo|
        ensures Agree(controlFlowInfo[i], laneCells, tables, cells, tables)
      {
        BelowIsSaved(controlFlowInfo, i);
      }
      SameAbsStack(controlFlowInfo, laneCells, tables, cells, tables);
    }

    // ---------- varying expressions ----------

    method EvaluateTest(test: Store -> bool) returns (m: Mask)
      requires Valid()
      ensures m == TestMask(Abs(), test)
    {
      m := set l: Lane | l < |vars| && test(vars[l]);
    }

    method EvaluateSwitch(expr: Store -> int) returns (vs: seq<int>)
      requires Valid()
      ensures vs == SwitchLanes(Abs(), expr)
    {
      var was := vars;
      vs := seq(|was|, l requires 0 <= l < |was| => expr(was[l]));
    }

    // ---------- if ----------

    method StartUniformIf()
      requires Valid()
      modifies this`controlFlowInfo
      ensures Valid() && Abs() == MaskContext.StartUniformIf(old(Abs()))
      ensures TopIs(IfFrame) && controlFlowInfo[..|controlFlowInfo| - 1] == old(controlFlowInfo)
    {
      hide LinksOK, AbsStack;
      PushIf(true, internalMask);
    }

    method StartVaryingIf(oldMask: Mask)
      requires Valid() && oldMask <= Gang(|vars|)
      modifies this`controlFlowInfo
      ensures Valid() && Abs() == MaskContext.StartVaryingIf(old(Abs()), oldMask)
      ensures TopIs(IfFrame) && controlFlowInfo[..|controlFlowInfo| - 1] == old(controlFlowInfo)
    {
      hide LinksOK, AbsStack;
      PushIf(false, oldMask);
    }

    method PushIf(isUniform: bool, m: Mask)
      requires Valid() && m <= Gang(|vars|)
      modifies this`controlFlowInfo
      ensures Valid() && Abs() == Push(old(Abs()), IfFrame, isUniform, m)
      ensures controlFlowInfo ==
          old(controlFlowInfo) + [CFInfo(IfFrame, isUniform, m, NoTargets.(blockEntryMask := Some(m)), NoLabels)]
    {
      hide LinksOK, AbsStack, TablesBelow;
      var f := CFInfo(IfFrame, isUniform, m, NoTargets.(blockEntryMask := Some(m)), NoLabels);
      assert AbsStack(controlFlowInfo + [f], laneCells, tables)
          == AbsStack(controlFlowInfo, laneCells, tables) + [AbsFrame(f, laneCells, tables)] by {
        PushAbs(controlFlowInfo, f, laneCells, tables);
      }
      assert LinksOK(controlFlowInfo + [f], targets, labels, |laneCells|, tables, nextTable) by {
        PushIfLinks(controlFlowInfo, f, targets, labels, |laneCells|, tables, nextTable);
      }
      controlFlowInfo := controlFlowInfo + [f];
    }

    method EndIf()
      requires Valid() && TopIs(IfFrame)
      modifies this
      ensures Valid() && Abs() == MaskContext.EndIf(old(Abs()))
      ensures PoppedTo(old(controlFlowInfo[|controlFlowInfo| - 1]))
    {
      hide LinksOK, AbsStack;
      var ci := PopCFState();
      if ci.isUniform || control != Here {
        return;
      }
      RestoreMaskGivenReturns(ci.savedMask);
      if targets.continueLanes.Some? || targets.breakLanes.Some? {
        var continueLanes := LoadLanes(targets.continueLanes);
        var breakLanes := LoadLanes(targets.breakLanes);
        var notBreakOrContinue := Gang(|vars|) - (continueLanes + breakLanes);
        SetInternalMask(internalMask * notBreakOrContinue);
      }
    }

    ghost predicate TopIs(kind: FrameKind)
      reads this
    {
      controlFlowInfo != [] && controlFlowInfo[|controlFlowInfo| - 1].kind == kind
    }

    /** Popping puts the saved targets and labels back, and releases the tables of a
        switch and nothing else. */
    twostate predicate PoppedTo(ci: CFInfo)
      reads this
    {
      && old(controlFlowInfo) == controlFlowInfo + [ci]
      && targets == (if ci.kind == IfFrame then old(targets) else ci.savedTargets)
      && labels == (if ci.kind == SwitchFrame then ci.savedLabels else old(labels))
      && tables.Keys == old(tables.Keys) - (if ci.kind == SwitchFrame then old(TablesOf(labels)) else {})
    }

    /** Pops a frame, puts back what it saved and releases the tables of a switch. */
    method PopCFState() returns (ci: CFInfo)
      requires Valid() && controlFlowInfo != []
      modifies this`controlFlowInfo, this`targets, this`labels, this`tables
      ensures Valid() && Abs() == Pop(old(Abs())) && ci.savedMask <= Gang(|vars|)
      ensures Abs().stack == Rest(old(Abs()).stack) && old(Abs()).stack != []
      ensures
        var f := Top(old(Abs()).stack);
        ci.kind == f.kind && ci.isUniform == f.isUniform && ci.savedMask == f.savedMask
      ensures PoppedTo(ci)
    {
      hide LinksOK, AbsStack;
      assert Abs().stack != []
        && Top(Abs().stack) == AbsFrame(controlFlowInfo[|controlFlowInfo| - 1], laneCells, tables)
        && Rest(Abs().stack) == AbsStack(controlFlowInfo[..|controlFlowInfo| - 1], laneCells, tables) by {
        PopAbs(controlFlowInfo, laneCells, tables);
      }
      ci := controlFlowInfo[|controlFlowInfo| - 1];
      if ci.kind == SwitchFrame {
        PopSwitch(ci);
      } else if ci.kind == LoopFrame {
        PopLoop(ci);
      } else {
        PopIf(ci);
      }
    }

    ghost predicate OnTop(ci: CFInfo, kind: FrameKind)
      reads this
    {
      && controlFlowInfo != [] && ci == controlFlowInfo[|controlFlowInfo| - 1] && ci.kind == kind
      && Abs().stack != [] && Top(Abs().stack) == AbsFrame(ci, laneCells, tables)
      && Rest(Abs().stack) == AbsStack(controlFlowInfo[..|controlFlowInfo| - 1], laneCells, tables)
    }

    method PopIf(ci: CFInfo)
      requires Valid() && OnTop(ci, IfFrame)
      modifies this`controlFlowInfo
      ensures Valid() && Abs() == Pop(old(Abs())) && PoppedTo(ci)
    {
      hide LinksOK, AbsStack;
      assert LinksOK(controlFlowInfo[..|controlFlowInfo| - 1], targets, labels, |laneCells|, tables, nextTable) by {
        PopIfLinks(controlFlowInfo, targets, labels, |laneCells|, tables, nextTable);
      }
      controlFlowInfo := controlFlowInfo[..|controlFlowInfo| - 1];
    }

    method PopLoop(ci: CFInfo)
      requires Valid() && OnTop(ci, LoopFrame)
      modifies this`controlFlowInfo, this`targets
      ensures Valid() && Abs() == Pop(old(Abs())) && PoppedTo(ci)
    {
      hide LinksOK, AbsStack, Cell, AbsLabels;
      assert LinksOK(controlFlowInfo[..|controlFlowInfo| - 1], ci.savedTargets, labels,
                     |laneCells|, tables, nextTable) by {
        PopLoopLinks(controlFlowInfo, targets, labels, |laneCells|, tables, nextTable);
      }
      controlFlowInfo := controlFlowInfo[..|controlFlowInfo| - 1];
      targets := ci.savedTargets;
    }

    /** Releases a table, which has to be allocated still. */
    method DeleteTable(a: nat)
      requires a in tables
      modifies this`tables
      ensures tables == old(tables) - {a}
    {
      tables := tables - {a};
    }

    /** Releases the tables of the current switch. */
    method DeleteTables()
      requires LabelsOK(labels, tables)
      modifies this`tables
      ensures tables == old(tables) - TablesOf(labels)
    {
      if labels.caseBlocks.Some? {
        DeleteTable(labels.caseBlocks.value);
      }
      if labels.nextBlocks.Some? {
        DeleteTable(labels.nextBlocks.value);
      }
    }

    method PopSwitch(ci: CFInfo)
      requires Valid() && OnTop(ci, SwitchFrame)
      modifies this`controlFlowInfo, this`targets, this`labels, this`tables
      ensures Valid() && Abs() == Pop(old(Abs())) && PoppedTo(ci)
    {
      hide LinksOK, AbsStack, Cell, AbsLabels, LabelsOK;
      ghost var rest, tables1 := controlFlowInfo[..|controlFlowInfo| - 1], tables - TablesOf(labels);
      assert LabelsOK(labels, tables) by {
        OwnTables(controlFlowInfo, targets, labels, |laneCells|, tables, nextTable);
      }
      assert LinksOK(rest, ci.savedTargets, ci.savedLabels, |laneCells|, tables1, nextTable) by {
        PopSwitchLinks(controlFlowInfo, targets, labels, |laneCells|, tables, nextTable);
      }
      assert AbsStack(rest, laneCells, tables1) == AbsStack(rest, laneCells, tables)
        && AbsLabels(ci.savedLabels, tables1) == AbsLabels(ci.savedLabels, tables) by {
        PopSwitchAbs(controlFlowInfo, targets, labels, laneCells, tables, nextTable);
      }
      assert OfWidth(|vars|, internalMask, laneCells, rest);
      DeleteTables();
      controlFlowInfo := controlFlowInfo[..|controlFlowInfo| - 1];
      targets := ci.savedTargets;
      labels := ci.savedLabels;
    }

    // ---------- loop ----------

    method StartLoop(bt: Label, ct: Label, uniformCF: bool)
      requires Valid()
      modifies this
      ensures Valid() && Abs() == MaskContext.StartLoop(old(Abs()), bt, ct, uniformCF)
      ensures controlFlowInfo == old(controlFlowInfo + [CFInfo(LoopFrame, uniformCF, internalMask, targets, NoLabels)])
      ensures labels == old(labels) && tables == old(tables)
    {
      hide AbsStack, Separate, FrameOK, TablesBelow;
      PushLoop(CFInfo(LoopFrame, uniformCF, internalMask, targets, NoLabels));
      if !uniformCF {
        AllocaLanes(true);
      }
      targets := targets.(breakTarget := Some(bt), continueTarget := Some(ct));  // the loop sets blockEntryMask
    }

    /** Saves the loop state in a loop frame and starts over without any. */
    method PushLoop(f: CFInfo)
      requires Valid() && f == CFInfo(LoopFrame, f.isUniform, internalMask, targets, NoLabels)
      modifies this`controlFlowInfo, this`targets
      ensures Valid() && targets == NoTargets && controlFlowInfo == old(controlFlowInfo) + [f]
      ensures Abs() == Push(old(Abs()), LoopFrame, f.isUniform, internalMask).(
          breakTarget := None, continueTarget := None, breakLanes := None, continueLanes := None, entryMask := None)
    {
      hide LinksOK, AbsStack, TablesBelow;
      assert AbsStack(controlFlowInfo + [f], laneCells, tables)
          == AbsStack(controlFlowInfo, laneCells, tables) + [AbsFrame(f, laneCells, tables)] by {
        PushAbs(controlFlowInfo, f, laneCells, tables);
      }
      assert LinksOK(controlFlowInfo + [f], NoTargets, labels, |laneCells|, tables, nextTable) by {
        PushLoopLinks(controlFlowInfo, f, targets, labels, |laneCells|, tables, nextTable);
      }
      controlFlowInfo := controlFlowInfo + [f];
      targets := NoTargets;
    }

    /** Fresh all-off break lanes and, for a loop, continue lanes. */
    method AllocaLanes(isLoop: bool)
      requires Valid() && targets == NoTargets
      modifies this`laneCells, this`targets
      ensures Valid() && targets.breakTarget == targets.continueTarget == None && targets.blockEntryMask == None
      ensures Abs() == old(Abs()).(breakLanes := Some({}), continueLanes := if isLoop then Some({}) else None)
    {
      hide LinksOK, AbsStack;
      var n := |laneCells|;
      var own := if isLoop then NoTargets.(continueLanes := Some(n), breakLanes := Some(n + 1))
                   else NoTargets.(breakLanes := Some(n));
      var cells := if isLoop then laneCells + [{}, {}] else laneCells + [{}];
      assert AbsStack(controlFlowInfo, cells, tables) == AbsStack(controlFlowInfo, laneCells, tables) by {
        CellsStaySame(cells);
      }
      assert LinksOK(controlFlowInfo, own, labels, |cells|, tables, nextTable) by {
        AllocaLinks(controlFlowInfo, own, labels, n, |cells|, tables, nextTable);
      }
      targets := own;
      laneCells := cells;
    }

    method EndLoop()
      requires Valid() && TopIs(LoopFrame)
      modifies this
      ensures Valid() && Abs() == MaskContext.EndLoop(old(Abs()))
      ensures
        var ci := old(controlFlowInfo[|controlFlowInfo| - 1]);
        internalMask == if ci.isUniform || control != Here then old(internalMask) else ci.savedMask - returnedLanes
      ensures PoppedTo(old(controlFlowInfo[|controlFlowInfo| - 1]))
    {
      hide LinksOK, AbsStack;
      var ci := PopCFState();
      if !ci.isUniform {
        RestoreMaskGivenReturns(ci.savedMask);
      }
    }

    method RestoreContinuedLanes()
      requires Valid()
      modifies this`internalMask, this`fullMaskMemory, this`laneCells
      ensures Valid() && Abs() == MaskContext.RestoreContinuedLanes(old(Abs()))
    {
      hide AbsStack, Separate, FrameOK, TablesBelow;
      if targets.continueLanes.None? {
        return;
      }
      var continueMask := LoadLanes(targets.continueLanes);
      SetInternalMask(internalMask + continueMask);
      StoreLanes(targets.continueLanes.value, {});
    }

    method ClearBreakLanes()
      requires Valid()
      modifies this`laneCells
      ensures Valid() && Abs() == MaskContext.ClearBreakLanes(old(Abs()))
    {
      hide AbsStack, Separate, FrameOK, TablesBelow;
      if targets.breakLanes.None? {
        return;
      }
      StoreLanes(targets.breakLanes.value, {});
    }

    /** Observes which lanes a jump out of the loop leaves parked in continueLanes. */
    method LeaveLoop()
      requires Valid()
      modifies this`lost
      ensures Valid() && Abs() == MaskedRun.LeaveLoop(old(Abs()))
    {
      hide LinksOK, AbsStack;
      if control.At? {
        lost := lost + Lanes(Abs().continueLanes) * Abs().functionMask;
      }
    }

    /** Goes on in the current block, or nowhere. */
    method SetControl(where: Control)
      requires Valid()
      modifies this`control
      ensures Valid() && Abs() == old(Abs()).(control := where)
    {
      hide LinksOK, AbsStack;
      control := where;
    }

    // ---------- looking up the control-flow stack ----------

    method InSwitchStatement() returns (r: bool)
      requires Valid()
      ensures r == InSwitch(Abs().stack)
    {
      ghost var stack := Abs().stack;
      AbsStackAt(controlFlowInfo, laneCells, tables);
      hide Valid, AbsStack, AbsLabels, Cell, Gang;
      var i := |controlFlowInfo| - 1;
      assert stack[..i + 1] == stack;
      while i >= 0 && controlFlowInfo[i].kind == IfFrame
        invariant -1 <= i < |controlFlowInfo|
        invariant InSwitch(stack[..i + 1]) == InSwitch(stack)
      {
        assert Rest(stack[..i + 1]) == stack[..i];
        i := i - 1;
      }
      r := i != -1 && controlFlowInfo[i].kind == SwitchFrame;
    }

    method IfsInCFAllUniform(kind: FrameKind) returns (r: bool)
      requires Valid()
      ensures r == AllUniformUpTo(Abs().stack, kind)
    {
      ghost var stack := Abs().stack;
      AbsStackAt(controlFlowInfo, laneCells, tables);
      hide Valid, AbsStack, AbsLabels, Cell, Gang;
      var i := |controlFlowInfo| - 1;
      assert stack[..i + 1] == stack;
      while i >= 0 && controlFlowInfo[i].kind != kind
        invariant -1 <= i < |controlFlowInfo|
        invariant AllUniformUpTo(stack[..i + 1], kind) == AllUniformUpTo(stack, kind)
      {
        assert Rest(stack[..i + 1]) == stack[..i];
        if !controlFlowInfo[i].isUniform {
          return false;
        }
        i := i - 1;
      }
      return true;
    }

    method VaryingCFDepth() returns (sum: nat)
      requires Valid()
      ensures sum == VaryingDepth(Abs().stack)
    {
      ghost var stack := Abs().stack;
      AbsStackAt(controlFlowInfo, laneCells, tables);
      hide Valid, AbsStack, AbsLabels, Cell, Gang;
      sum := 0;
      for i := 0 to |controlFlowInfo|
        invariant sum == VaryingDepth(stack[..i])
      {
        assert Rest(stack[..i + 1]) == stack[..i];
        if !controlFlowInfo[i].isUniform {
          sum := sum + 1;
        }
      }
      assert stack[..|stack|] == stack;
    }

    method GetMaskAtSwitchEntry() returns (m: Mask)
      requires Valid() && InSwitch(Abs().stack)  // both callers have just checked this
      ensures m == MaskAtSwitchEntry(Abs().stack) && m <= Gang(|vars|)
    {
      SavedMasksFit();
      ghost var stack := Abs().stack;
      AbsStackAt(controlFlowInfo, laneCells, tables);
      hide Valid, AbsStack, MaskAtSwitchEntry, InSwitch, AbsLabels, Cell, Gang;
      var i := |controlFlowInfo| - 1;
      assert stack[..i + 1] == stack;
      while i >= 0 && controlFlowInfo[i].kind != SwitchFrame
        invariant -1 <= i < |controlFlowInfo|
        invariant MaskAtSwitchEntry(stack[..i + 1]) == MaskAtSwitchEntry(stack)
        invariant InSwitch(stack[..i + 1])
      {
        EntryBelow(stack, i);
        i := i - 1;
      }
      EntryHere(stack, i);
      m := controlFlowInfo[i].savedMask;
    }

    lemma SavedMasksFit()
      requires Valid()
      ensures forall i :: 0 <= i < |controlFlowInfo| ==> controlFlowInfo[i].savedMask <= Gang(|vars|)
    {
    }

    // ---------- break, continue, return ----------

    /** What the assertions in Break, Continue and their coherence checks demand. */
    ghost predicate JumpsReady()
      reads this
    {
      var c := Abs();
      && Linked(c) && (c.breakTarget.Some? ==> c.stack != [] && c.entryMask.Some?)
      && (c.continueTarget.Some? ==> c.breakTarget.Some?)
    }

    method JumpIfAllLoopLanesAreDone(target: Label)
      requires Valid() && targets.blockEntryMask.Some?
      requires targets.breakLanes.None? ==> targets.continueLanes.Some?
      modifies this`control
      ensures Valid() && Abs() == MaskContext.JumpIfAllLoopLanesAreDone(old(Abs()), target)
    {
      hide AbsStack, Separate, FrameOK, TablesBelow;
      var continued := LoadLanes(targets.continueLanes);
      var functionMask := GetFunctionMask();
      var allDone;
      if targets.breakLanes.None? {
        allDone := continued * functionMask == targets.blockEntryMask.value;
      } else {
        var breaked := LoadLanes(targets.breakLanes);
        var finishedLanes := returnedLanes + breaked;
        if targets.continueLanes.Some? {
          finishedLanes := finishedLanes + continued;
        }
        assert returnedLanes + breaked + {} == returnedLanes + breaked;
        allDone := finishedLanes * functionMask == targets.blockEntryMask.value;
      }
      if allDone {
        control := At(target);
      }
    }

    method Break(doCoherenceCheck: bool)
      requires Valid() && JumpsReady()
      modifies this`control, this`laneCells, this`internalMask, this`fullMaskMemory
      ensures Valid() && Abs() == DoBreak(old(Abs()), doCoherenceCheck)
    {
      hide LinksOK, AbsStack, InSwitch, AllUniformUpTo;
      if targets.breakTarget.None? || control != Here {
        return;  // an error outside of loops and switches; nothing to do in dead code
      }
      var inSwitch := InSwitchStatement();
      var uniformToSwitch := IfsInCFAllUniform(SwitchFrame);
      if inSwitch && labels.switchConditionWasUniform && uniformToSwitch {
        control := At(targets.breakTarget.value);
        return;
      }
      var uniformToLoop := IfsInCFAllUniform(LoopFrame);
      if !inSwitch && uniformToLoop {
        control := At(targets.breakTarget.value);
      } else {
        BreakLanes(doCoherenceCheck);
      }
    }

    /** The lanes that break are recorded and turned off. */
    method BreakLanes(doCoherenceCheck: bool)
      requires Valid() && JumpsReady() && targets.breakTarget.Some? && control == Here
      requires !BreakJumpsFromSwitch(Abs()) && !BreakJumpsFromLoop(Abs())
      modifies this`control, this`laneCells, this`internalMask, this`fullMaskMemory
      ensures Valid() && Abs() == DoBreak(old(Abs()), doCoherenceCheck)
    {
      hide LinksOK, AbsStack, InSwitch, AllUniformUpTo;
      var breakMask := LoadLanes(targets.breakLanes);
      OwnCell();
      StoreLanes(targets.breakLanes.value, internalMask + breakMask);
      SetInternalMask({});
      if doCoherenceCheck {
        if targets.continueTarget.Some? {
          JumpIfAllLoopLanesAreDone(targets.continueTarget.value);
        } else {
          JumpIfAllLoopLanesAreDone(targets.breakTarget.value);
        }
      }
    }

    lemma OwnCell()
      ensures targets.breakLanes.Some? ==> targets.breakLanes.value in CellsOf(targets)
      ensures targets.continueLanes.Some? ==> targets.continueLanes.value in CellsOf(targets)
    {
    }

    method Continue(doCoherenceCheck: bool)
      requires Valid() && JumpsReady()
      modifies this`control, this`laneCells, this`internalMask, this`fullMaskMemory
      ensures Valid() && Abs() == DoContinue(old(Abs()), doCoherenceCheck)
    {
      hide LinksOK, AbsStack, AllUniformUpTo;
      if targets.continueTarget.None? || control != Here {
        return;  // an error outside of loops; nothing to do in dead code
      }
      var uniformToLoop := IfsInCFAllUniform(LoopFrame);
      if uniformToLoop {
        control := At(targets.continueTarget.value);
      } else {
        var continueMask := LoadLanes(targets.continueLanes);
        OwnCell();
        StoreLanes(targets.continueLanes.value, internalMask + continueMask);
        SetInternalMask({});
        if doCoherenceCheck {
          JumpIfAllLoopLanesAreDone(targets.continueTarget.value);
        }
      }
    }

    method StoreVar(x: string, rhs: Store -> int)
      requires Valid()
      modifies this`vars
      ensures Valid() && Abs() == MaskContext.StoreVar(old(Abs()), x, rhs)
    {
      hide LinksOK, AbsStack;
      var m := GetFullMask();
      var was := vars;
      vars := seq(|was|, l requires 0 <= l < |was| => if l in m then was[l][x := rhs(was[l])] else was[l]);
      assert vars == MaskContext.StoreVar(old(Abs()), x, rhs).vars;
    }

    /** The masked store into the return-value memory. */
    method StoreReturnValues(value: Store -> int)
      requires Valid()
      modifies this`returnValues
      ensures Valid() && Abs() == StoreReturn(old(Abs()), value)
    {
      hide LinksOK, AbsStack;
      var was, m, vs := returnValues, internalMask, vars;
      returnValues := seq(|was|, l requires 0 <= l < |was| => if l in m && l < |vs| then value(vs[l]) else was[l]);
      assert returnValues == StoreReturn(old(Abs()), value).ret;
    }

    method CurrentLanesReturned(value: Store -> int, doCoherenceCheck: bool)
      requires Valid()
      modifies this`returnValues, this`control, this`returnedLanes, this`internalMask, this`fullMaskMemory
      ensures Valid() && Abs() == DoReturn(old(Abs()), value, doCoherenceCheck)
    {
      hide LinksOK, AbsStack, VaryingDepth;
      if control != Here {
        return;
      }
      StoreReturnValues(value);
      var depth := VaryingCFDepth();
      if depth == 0 {
        control := Exited;
      } else {
        var fullMask := GetFullMask();
        var newReturnedLanes := returnedLanes + fullMask;
        if doCoherenceCheck {
          var functionMask := GetFunctionMask();
          if functionMask == newReturnedLanes {
            control := Exited;
            return;
          }
        }
        returnedLanes := newReturnedLanes;
        SetInternalMask({});
      }
    }

    // ---------- switch ----------

    method StartSwitch(cfIsUniform: bool, bbBreak: Label)
      requires Valid()
      modifies this
      ensures Valid() && Abs() == MaskContext.StartSwitch(old(Abs()), cfIsUniform, bbBreak)
      ensures controlFlowInfo ==
        old(controlFlowInfo + [CFInfo(SwitchFrame, cfIsUniform, internalMask, targets, labels)])
      ensures labels.caseBlocks.None? && labels.nextBlocks.None? && tables == old(tables)
    {
      hide AbsStack, Separate, FrameOK, TablesBelow;
      PushSwitch(CFInfo(SwitchFrame, cfIsUniform, internalMask, targets, labels));
      AllocaLanes(false);
      targets := targets.(breakTarget := Some(bbBreak));
    }

    /** Saves the loop and switch state in a switch frame and starts over without any. */
    method PushSwitch(f: CFInfo)
      requires Valid() && f == CFInfo(SwitchFrame, f.isUniform, internalMask, targets, labels)
      modifies this`controlFlowInfo, this`targets, this`labels
      ensures Valid() && targets == NoTargets && labels.caseBlocks.None? && labels.nextBlocks.None?
      ensures controlFlowInfo == old(controlFlowInfo) + [f]
      ensures
        var c := old(Abs());
        Abs() == Push(c, SwitchFrame, f.isUniform, c.internal).(
          breakTarget := None, continueTarget := None, breakLanes := None, continueLanes := None, entryMask := None,
          sw := NoSwitch.(wasUniform := c.sw.wasUniform))
    {
      hide LinksOK, AbsStack, TablesBelow;
      assert AbsStack(controlFlowInfo + [f], laneCells, tables)
          == AbsStack(controlFlowInfo, laneCells, tables) + [AbsFrame(f, laneCells, tables)] by {
        PushAbs(controlFlowInfo, f, laneCells, tables);
      }
      var own := NoLabels.(switchConditionWasUniform := labels.switchConditionWasUniform);
      assert LinksOK(controlFlowInfo + [f], NoTargets, own, |laneCells|, tables, nextTable) by {
        PushSwitchLinks(controlFlowInfo, f, targets, labels, own, |laneCells|, tables, nextTable);
      }
      controlFlowInfo := controlFlowInfo + [f];
      targets := NoTargets;
      labels := own;
    }

    /** Copies the label tables and sends control to the labels. */
    method SwitchInst(expr: SwitchValue, bbDefault: Label, bbCases: CaseTable, bbNext: NextTable)
      requires Valid() && labels.caseBlocks.None? && labels.nextBlocks.None?  // StartSwitch() came before
      requires |bbNext| > 0 ==> None in bbNext
      modifies this
      ensures Valid() && Abs() == MaskContext.SwitchInst(old(Abs()), expr, bbDefault, bbCases, bbNext)
      ensures targets == old(targets) && controlFlowInfo == old(controlFlowInfo)
      ensures tables.Keys == old(tables.Keys) + TablesOf(labels) && TablesOf(labels) !! old(tables.Keys)
    {
      hide LinksOK, AbsStack;
      NewTables(expr, bbDefault, bbCases, bbNext);
      if control != Here {
        return;
      }
      if expr.OneValue? {
        control := At(SwitchDestination(expr.v, bbDefault, bbCases));
      } else {
        SetInternalMask({});
        if |bbNext| > 0 {
          control := At(bbNext[None]);
        }
      }
    }

    method NewTables(expr: SwitchValue, bbDefault: Label, bbCases: CaseTable, bbNext: NextTable)
      requires Valid() && labels.caseBlocks.None? && labels.nextBlocks.None?
      modifies this`labels, this`tables, this`nextTable
      ensures Valid() && tables.Keys == old(tables.Keys) + TablesOf(labels) && TablesOf(labels) !! old(tables.Keys)
      ensures Abs() == old(Abs()).(
          sw := SwitchState(Some(expr), Some(bbDefault), Some(bbCases), Some(bbNext), expr.OneValue?))
    {
      hide LinksOK, AbsStack, Cell;
      var tables1 := tables[nextTable := Cases(bbCases)][nextTable + 1 := Next(bbNext)];
      var own := Labels(Some(expr), Some(bbDefault), Some(nextTable), Some(nextTable + 1), expr.OneValue?);
      assert LinksOK(controlFlowInfo, targets, own, |laneCells|, tables1, nextTable + 2)
        && AbsStack(controlFlowInfo, laneCells, tables1) == AbsStack(controlFlowInfo, laneCells, tables)
        && TablesOf(own) !! tables.Keys && tables1.Keys == tables.Keys + TablesOf(own) by {
        NewTablesLinks(controlFlowInfo, targets, labels, own, laneCells, tables, nextTable, bbCases, bbNext);
        NewTablesAbs(controlFlowInfo, targets, labels, laneCells, tables, nextTable, bbCases, bbNext);
      }
      tables, nextTable, labels := tables1, nextTable + 2, own;
    }

    method EndSwitch()
      requires Valid() && TopIs(SwitchFrame)
      modifies this
      ensures Valid() && Abs() == MaskContext.EndSwitch(old(Abs()))
      ensures PoppedTo(old(controlFlowInfo[|controlFlowInfo| - 1]))
    {
      hide LinksOK, AbsStack;
      var ci := PopCFState();
      if !ci.isUniform && control == Here {
        RestoreMaskGivenReturns(ci.savedMask);
      }
    }

    /** Arrives at a label, by falling into it or by a jump to it. */
    method SetCurrentBasicBlock(block: Label)
      requires Valid()
      modifies this`control
      ensures Valid() && Abs() == ArriveAt(old(Abs()), block)
    {
      hide LinksOK, AbsStack;
      if control == At(block) {
        control := Here;
      }
    }

    /** The lanes whose switch value is v. */
    method MatchesCaseValue(v: int) returns (m: Mask)
      requires Valid() && Abs().sw.expr.Some? && Abs().sw.expr.value.LaneValues?
      ensures m == MatchMask(Abs(), v)
    {
      hide LinksOK, AbsStack;
      var vs := labels.switchExpr.value.vs;
      m := set l: Lane | l < |vs| && vs[l] == v;
    }

    method TurnOn(block: Label, lanes: Mask, checkMask: bool)
      requires Valid() && lanes <= Gang(|vars|)
      requires LabelReady(Abs().sw, Some(block), checkMask) && !labels.switchConditionWasUniform
      modifies this`internalMask, this`fullMaskMemory, this`control
      ensures Valid() && Abs() == TurnOnAtLabel(old(Abs()), block, lanes, checkMask)
    {
      hide LinksOK, AbsStack;
      var newMask := internalMask + lanes;
      SetInternalMask(newMask);
      if checkMask && newMask == {} {
        control := At(tables[labels.nextBlocks.value].next[Some(block)]);
      }
    }

    method EmitDefaultLabel(checkMask: bool)
      requires Valid() && (InSwitch(Abs().stack) ==> LabelReady(Abs().sw, Abs().sw.defaultBlock, checkMask))
      modifies this`internalMask, this`fullMaskMemory, this`control
      ensures Valid() && Abs() == MaskContext.EmitDefaultLabel(old(Abs()), checkMask)
    {
      hide LinksOK, AbsStack, InSwitch, MaskAtSwitchEntry;
      var inSwitch := InSwitchStatement();
      if !inSwitch {
        return;  // an error
      }
      var block := labels.defaultBlock.value;
      SetCurrentBasicBlock(block);
      if control != Here || labels.switchConditionWasUniform {
        return;
      }
      var entryMask := GetMaskAtSwitchEntry();
      var matchesDefault := MatchesNoCase(entryMask, tables[labels.caseBlocks.value].cases);
      TurnOn(block, matchesDefault, checkMask);
    }

    /** The lanes of entryMask whose switch value is that of none of the cases. */
    method MatchesNoCase(entryMask: Mask, cases: CaseTable) returns (matchesDefault: Mask)
      requires Valid() && entryMask <= Gang(|vars|)
      requires Abs().sw.expr.Some? && Abs().sw.expr.value.LaneValues?
      ensures matchesDefault == entryMask * Not(Abs(), AnyCaseMask(Abs(), cases)) && matchesDefault <= Gang(|vars|)
    {
      hide LinksOK, AbsStack, MatchMask;
      matchesDefault := entryMask;
      ghost var c := Abs();
      assert cases[0..] == cases;
      for i := 0 to |cases|
        invariant matchesDefault <= Gang(|vars|)
        invariant matchesDefault * Not(c, AnyCaseMask(c, cases[i..])) == entryMask * Not(c, AnyCaseMask(c, cases))
      {
        var matchesCaseValue := MatchesCaseValue(cases[i].0);
        assert cases[i..][1..] == cases[i + 1..];
        matchesDefault := matchesDefault * (Gang(|vars|) - matchesCaseValue);
      }
      assert cases[|cases|..] == [];
    }

    method EmitCaseLabel(value: int, checkMask: bool)
      requires Valid()
      requires InSwitch(Abs().stack) ==>
          Abs().sw.cases.Some? && LabelReady(Abs().sw, FindCase(Abs().sw.cases.value, value), checkMask)
      modifies this`internalMask, this`fullMaskMemory, this`control
      ensures Valid() && Abs() == MaskContext.EmitCaseLabel(old(Abs()), value, checkMask)
    {
      hide LinksOK, AbsStack, InSwitch, MaskAtSwitchEntry;
      var inSwitch := InSwitchStatement();
      if !inSwitch {
        return;  // an error
      }
      var cases := tables[labels.caseBlocks.value].cases;
      assert cases[0..] == cases;
      var i := 0;
      while i < |cases| && cases[i].0 != value
        invariant 0 <= i <= |cases| && FindCase(cases[i..], value) == FindCase(cases, value)
      {
        assert cases[i..][1..] == cases[i + 1..];
        i := i + 1;
      }
      var block := cases[i].1;
      SetCurrentBasicBlock(block);
      if control != Here || labels.switchConditionWasUniform {
        return;
      }
      var matchesCaseValue := MatchesCaseValue(value);
      var entryMask := GetMaskAtSwitchEntry();
      TurnOn(block, entryMask * matchesCaseValue, checkMask);
    }
  }

  lemma EntryBelow(stack: seq<Frame>, i: nat)
    requires i < |stack| && stack[i].kind != SwitchFrame
    ensures MaskAtSwitchEntry(stack[..i + 1]) == MaskAtSwitchEntry(stack[..i])
    ensures InSwitch(stack[..i + 1]) ==> InSwitch(stack[..i])
  {
    assert Rest(stack[..i + 1]) == stack[..i];
  }

  lemma EntryHere(stack: seq<Frame>, i: int)
    requires -1 <= i < |stack| && InSwitch(stack[..i + 1]) && (i >= 0 ==> stack[i].kind == SwitchFrame)
    ensures i >= 0 && MaskAtSwitchEntry(stack[..i + 1]) == stack[i].savedMask
  {
  }

  // ---------- facts about the stack of saved addresses ----------

  /** Two memories agree on what f saved. */
  ghost predicate Agree(
    f: CFInfo, cells: seq<Mask>, tables: map<nat, Table>, cells1: seq<Mask>, tables1: map<nat, Table>)
  {
    && (forall a :: a in SavedCells(f) ==> a < |cells| && a < |cells1| && cells[a] == cells1[a])
    && (forall a :: a in SavedTables(f) ==> a in tables && a in tables1 && tables[a] == tables1[a])
  }

  lemma SameAbsFrame(f: CFInfo, cells: seq<Mask>, tables: map<nat, Table>, cells1: seq<Mask>, tables1: map<nat, Table>)
    requires Agree(f, cells, tables, cells1, tables1)
    ensures AbsFrame(f, cells, tables) == AbsFrame(f, cells1, tables1)
  {
    assert f.savedTargets.breakLanes.Some? ==> f.savedTargets.breakLanes.value in SavedCells(f);
    assert f.savedTargets.continueLanes.Some? ==> f.savedTargets.continueLanes.value in SavedCells(f);
    assert f.savedLabels.caseBlocks.Some? ==> f.savedLabels.caseBlocks.value in SavedTables(f);
    assert f.savedLabels.nextBlocks.Some? ==> f.savedLabels.nextBlocks.value in SavedTables(f);
  }

  lemma {:induction false} SameAbsStack(
    stack: seq<CFInfo>, cells: seq<Mask>, tables: map<nat, Table>, cells1: seq<Mask>, tables1: map<nat, Table>)
    requires forall i :: 0 <= i < |stack| ==> Agree(stack[i], cells, tables, cells1, tables1)
    ensures AbsStack(stack, cells, tables) == AbsStack(stack, cells1, tables1)
  {
    if stack != [] {
      SameAbsFrame(stack[|stack| - 1], cells, tables, cells1, tables1);
      SameAbsStack(stack[..|stack| - 1], cells, tables, cells1, tables1);
    }
  }

  lemma PushAbs(stack: seq<CFInfo>, f: CFInfo, cells: seq<Mask>, tables: map<nat, Table>)
    ensures AbsStack(stack + [f], cells, tables) == AbsStack(stack, cells, tables) + [AbsFrame(f, cells, tables)]
    ensures TablesBelow(stack + [f]) == TablesBelow(stack) + SavedTables(f)
  {
    assert (stack + [f])[..|stack|] == stack;
  }

  lemma PushIfLinks(
    stack: seq<CFInfo>, f: CFInfo, targets: Targets, labels: Labels,
    width: nat, tables: map<nat, Table>, nextTable: nat)
    requires LinksOK(stack, targets, labels, width, tables, nextTable)
    requires f.kind == IfFrame && SavedCells(f) == {} && SavedTables(f) == {}
    ensures LinksOK(stack + [f], targets, labels, width, tables, nextTable)
  {
    PushAbs(stack, f, [], tables);
    assert forall i :: 0 <= i < |stack + [f]| ==> (stack + [f])[i] == if i < |stack| then stack[i] else f;
  }

  lemma PushLoopLinks(
    stack: seq<CFInfo>, f: CFInfo, targets: Targets, labels: Labels,
    width: nat, tables: map<nat, Table>, nextTable: nat)
    requires LinksOK(stack, targets, labels, width, tables, nextTable)
    requires f.kind == LoopFrame && f.savedTargets == targets && f.savedLabels == NoLabels
    ensures LinksOK(stack + [f], NoTargets, labels, width, tables, nextTable)
  {
    PushAbs(stack, f, [], tables);
    assert forall i :: 0 <= i < |stack + [f]| ==> (stack + [f])[i] == if i < |stack| then stack[i] else f;
  }

  lemma PushSwitchLinks(
    stack: seq<CFInfo>, f: CFInfo, targets: Targets, labels: Labels, own: Labels,
    width: nat, tables: map<nat, Table>, nextTable: nat)
    requires LinksOK(stack, targets, labels, width, tables, nextTable)
    requires f.kind == SwitchFrame && f.savedTargets == targets && f.savedLabels == labels
    requires own.caseBlocks.None? && own.nextBlocks.None?
    ensures LinksOK(stack + [f], NoTargets, own, width, tables, nextTable)
  {
    PushAbs(stack, f, [], tables);
    assert forall i :: 0 <= i < |stack + [f]| ==> (stack + [f])[i] == if i < |stack| then stack[i] else f;
  }

  /** Fresh tables belong to nobody else. */
  lemma NewTablesLinks(
    stack: seq<CFInfo>, targets: Targets, labels: Labels, own: Labels,
    cells: seq<Mask>, tables: map<nat, Table>, n: nat, cases: CaseTable, next: NextTable)
    requires LinksOK(stack, targets, labels, |cells|, tables, n)
    requires labels.caseBlocks.None? && labels.nextBlocks.None?
    requires own.caseBlocks == Some(n) && own.nextBlocks == Some(n + 1)
    ensures
      var tables1 := tables[n := Cases(cases)][n + 1 := Next(next)];
      LinksOK(stack, targets, own, |cells|, tables1, n + 2)
      && TablesOf(own) !! tables.Keys && tables1.Keys == tables.Keys + TablesOf(own)
  {
    hide AbsStack, TablesBelow, Agree;
    var tables1 := tables[n := Cases(cases)][n + 1 := Next(next)];
    NewTablesFrames(stack, targets, labels, cells, tables, n, cases, next);
    assert TablesOf(own) == {n, n + 1};
    assert forall i, a :: 0 <= i < |stack| && a in SavedTables(stack[i]) ==> a in tables.Keys;
  }

  lemma NewTablesAbs(
    stack: seq<CFInfo>, targets: Targets, labels: Labels,
    cells: seq<Mask>, tables: map<nat, Table>, n: nat, cases: CaseTable, next: NextTable)
    requires LinksOK(stack, targets, labels, |cells|, tables, n)
    ensures AbsStack(stack, cells, tables[n := Cases(cases)][n + 1 := Next(next)]) == AbsStack(stack, cells, tables)
  {
    hide LinksOK, Agree;
    NewTablesFrames(stack, targets, labels, cells, tables, n, cases, next);
    SameAbsStack(stack, cells, tables[n := Cases(cases)][n + 1 := Next(next)], cells, tables);
  }

  lemma NewTablesFrames(
    stack: seq<CFInfo>, targets: Targets, labels: Labels,
    cells: seq<Mask>, tables: map<nat, Table>, n: nat, cases: CaseTable, next: NextTable)
    requires LinksOK(stack, targets, labels, |cells|, tables, n)
    ensures
      var tables1 := tables[n := Cases(cases)][n + 1 := Next(next)];
      forall i :: 0 <= i < |stack| ==>
        FrameOK(stack[i], |cells|, tables1) && Agree(stack[i], cells, tables1, cells, tables)
        && SavedTables(stack[i]) <= tables.Keys
  {
    var tables1 := tables[n := Cases(cases)][n + 1 := Next(next)];
    forall i | 0 <= i < |stack|
      ensures FrameOK(stack[i], |cells|, tables1) && Agree(stack[i], cells, tables1, cells, tables)
      ensures SavedTables(stack[i]) <= tables.Keys
    {
      assert FrameOK(stack[i], |cells|, tables);
      BelowIsSaved(stack, i);
    }
  }

  /** Fresh cells belong to nobody else. */
  lemma AllocaLinks(
    stack: seq<CFInfo>, targets: Targets, labels: Labels,
    width: nat, width1: nat, tables: map<nat, Table>, nextTable: nat)
    requires LinksOK(stack, NoTargets, labels, width, tables, nextTable)
    requires TargetsOK(targets, width1) && width <= width1 && forall a :: a in CellsOf(targets) ==> width <= a
    ensures LinksOK(stack, targets, labels, width1, tables, nextTable)
  {
    assert forall i :: 0 <= i < |stack| ==> FrameOK(stack[i], width, tables);
  }

  lemma PopIfLinks(
    stack: seq<CFInfo>, targets: Targets, labels: Labels,
    width: nat, tables: map<nat, Table>, nextTable: nat)
    requires LinksOK(stack, targets, labels, width, tables, nextTable)
    requires stack != [] && stack[|stack| - 1].kind == IfFrame
    ensures LinksOK(stack[..|stack| - 1], targets, labels, width, tables, nextTable)
  {
    assert FrameOK(stack[|stack| - 1], width, tables);
  }

  lemma PopLoopLinks(
    stack: seq<CFInfo>, targets: Targets, labels: Labels,
    width: nat, tables: map<nat, Table>, nextTable: nat)
    requires LinksOK(stack, targets, labels, width, tables, nextTable)
    requires stack != [] && stack[|stack| - 1].kind == LoopFrame
    ensures
      var f := stack[|stack| - 1];
      LinksOK(stack[..|stack| - 1], f.savedTargets, labels, width, tables, nextTable)
  {
    var f, rest := stack[|stack| - 1], stack[..|stack| - 1];
    assert FrameOK(f, width, tables);
    assert forall i :: 0 <= i < |rest| ==> rest[i] == stack[i];
    assert Separate(rest, SavedCells(f), TablesOf(labels));
  }

  /** The tables that older frames need are older than any given bound above theirs. */
  lemma {:induction false} BelowIsOlder(stack: seq<CFInfo>, bound: nat)
    requires forall i, a :: 0 <= i < |stack| && a in SavedTables(stack[i]) ==> a < bound
    ensures forall a :: a in TablesBelow(stack) ==> a < bound
  {
    if stack != [] {
      assert forall i :: 0 <= i < |stack| - 1 ==> stack[..|stack| - 1][i] == stack[i];
      BelowIsOlder(stack[..|stack| - 1], bound);
    }
  }

  lemma PopSwitchLinks(
    stack: seq<CFInfo>, targets: Targets, labels: Labels,
    width: nat, tables: map<nat, Table>, nextTable: nat)
    requires LinksOK(stack, targets, labels, width, tables, nextTable)
    requires stack != [] && stack[|stack| - 1].kind == SwitchFrame
    ensures
      var f := stack[|stack| - 1];
      LinksOK(stack[..|stack| - 1], f.savedTargets, f.savedLabels, width, tables - TablesOf(labels), nextTable)
  {
    var f, rest := stack[|stack| - 1], stack[..|stack| - 1];
    var tables1 := tables - TablesOf(labels);
    assert FrameOK(f, width, tables);
    if labels.caseBlocks.Some? {
      BelowIsOlder(stack, labels.caseBlocks.value);
    }
    if labels.nextBlocks.Some? {
      BelowIsOlder(stack, labels.nextBlocks.value);
    }
    assert tables1.Keys == TablesBelow(stack) == TablesBelow(rest) + SavedTables(f);
    assert forall i :: 0 <= i < |rest| ==> rest[i] == stack[i];
    assert Separate(rest, SavedCells(f), SavedTables(f));
    forall i | 0 <= i < |rest|
      ensures FrameOK(rest[i], width, tables1)
    {
      assert FrameOK(stack[i], width, tables);
      BelowIsSaved(stack, i);
      FrameStaysOK(rest[i], width, tables, tables1);
    }
    BelowIsSaved(stack, |stack| - 1);
    FrameStaysOK(f, width, tables, tables1);
  }

  lemma OwnTables(
    stack: seq<CFInfo>, targets: Targets, labels: Labels,
    width: nat, tables: map<nat, Table>, nextTable: nat)
    requires LinksOK(stack, targets, labels, width, tables, nextTable)
    ensures LabelsOK(labels, tables)
  {
  }

  lemma PopSwitchAbs(
    stack: seq<CFInfo>, targets: Targets, labels: Labels,
    cells: seq<Mask>, tables: map<nat, Table>, nextTable: nat)
    requires LinksOK(stack, targets, labels, |cells|, tables, nextTable)
    requires stack != [] && stack[|stack| - 1].kind == SwitchFrame
    ensures
      var f, rest, tables1 := stack[|stack| - 1], stack[..|stack| - 1], tables - TablesOf(labels);
      AbsStack(rest, cells, tables1) == AbsStack(rest, cells, tables)
      && AbsLabels(f.savedLabels, tables1) == AbsLabels(f.savedLabels, tables)
  {
    var f, rest, tables1 := stack[|stack| - 1], stack[..|stack| - 1], tables - TablesOf(labels);
    forall i | 0 <= i < |stack|
      ensures Agree(stack[i], cells, tables1, cells, tables)
    {
      assert FrameOK(stack[i], |cells|, tables);
      BelowIsSaved(stack, i);
    }
    assert forall i :: 0 <= i < |rest| ==> rest[i] == stack[i];
    SameAbsStack(rest, cells, tables1, cells, tables);
    SameAbsFrame(f, cells, tables1, cells, tables);
  }

  lemma FrameStaysOK(f: CFInfo, width: nat, tables: map<nat, Table>, tables1: map<nat, Table>)
    requires FrameOK(f, width, tables) && SavedTables(f) <= tables1.Keys
    requires forall a :: a in tables1 ==> a in tables && tables1[a] == tables[a]
    ensures FrameOK(f, width, tables1)
  {
    assert f.savedLabels.caseBlocks.Some? ==> f.savedLabels.caseBlocks.value in SavedTables(f);
    assert f.savedLabels.nextBlocks.Some? ==> f.savedLabels.nextBlocks.value in SavedTables(f);
  }

  lemma PopAbs(stack: seq<CFInfo>, cells: seq<Mask>, tables: map<nat, Table>)
    requires stack != []
    ensures
      var rest, f := stack[..|stack| - 1], stack[|stack| - 1];
      AbsStack(stack, cells, tables) != [] && AbsStack(rest, cells, tables) == Rest(AbsStack(stack, cells, tables))
      && AbsFrame(f, cells, tables) == Top(AbsStack(stack, cells, tables))
  {
  }

  lemma {:induction false} BelowIsSaved(stack: seq<CFInfo>, i: int)
    requires 0 <= i < |stack|
    ensures SavedTables(stack[i]) <= TablesBelow(stack)
    decreases |stack|
  {
    if i < |stack| - 1 {
      BelowIsSaved(stack[..|stack| - 1], i);
    }
  }

  lemma {:induction false} AbsStackAt(stack: seq<CFInfo>, cells: seq<Mask>, tables: map<nat, Table>)
    ensures |AbsStack(stack, cells, tables)| == |stack|
    ensures forall i :: 0 <= i < |stack| ==> AbsStack(stack, cells, tables)[i] == AbsFrame(stack[i], cells, tables)
  {
    if stack != [] {
      AbsStackAt(stack[..|stack| - 1], cells, tables);
    }
  }
}
