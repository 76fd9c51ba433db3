# ispc: masks, lanes and a few of their neighbours

ispc compiles a program that is written for one program instance into code that runs a
whole gang of them at once.  Control flow that differs between the lanes of the gang is
turned into straight vector code driven by masks: an internal mask, a function mask, the
lanes that have broken, continued or returned, and a stack of saved masks, all kept by
`FunctionEmitContext` in `src/ctx.cpp`.  The main part of this project models that
machinery and proves what it is for: for every program, every expression in it, every gang
width, function mask and input, the masked run seen by one lane is that lane's own scalar
run, one ends exactly when the others do, and the shortcuts that skip mask code change
nothing, with one exception, described below, whose exact condition is proved and which
affects no lane but those it names.  A second language adds what the first leaves out:
uniform variables that change, loops with uniform tests, `do` loops, scopes, structures and
arrays, stores without a mask, and expressions that have effects and may fault; there, too,
each lane gets what plain C would give it.

The rest are independent models of other parts of the repository, each with its own main
result: the analysis that allows code to run with no lane on, calls through varying
function pointers, SOA slice pointers, hierarchical linking of built-in functions, the
drawing of AST dumps, the print formatter, argument splitting and expansion, and the
work queue of the test driver.

## How it is laid out

The mask machinery comes in layers.

- `Lang` is a structured statement language with arbitrary expressions and its meaning for
  one lane.  `MaskContext` holds the state of one dynamic path through the emitted code as
  a value, with one function per `FunctionEmitContext` operation; `MaskedRun` runs a
  statement by these functions.
- `EmitContext` is `FunctionEmitContext` as an object whose methods update its fields: lane
  masks in allocated cells behind addresses, tables of a switch that are allocated and
  deleted, loops over the control-flow stack.  Each method is proved to do what its function
  in `MaskContext` says.  `EmitProgram` drives the object through a whole statement and is
  proved equal to `MaskedRun`, so that everything below holds of the object.
- `JumpConditions` says when each jump is taken, without the functions that decide it.
- `StackDiscipline`, `LaneInvariant`, `LaneSimulation`, `LoopSimulation`, `SwitchLabels` and
  `SwitchSimulation` carry the proof; `GangTheorems`, `NoLoss`, `Shortcuts`,
  `ReachableMasks` and `ScopeStores` state the results.

The second language is that of the trees which the analysis of code that may run with no
lane on looks at, with faults, effects, uniform variables and structures.

- `AllOffSafety` is the tree, the analysis and what its text says about stores; `AllOffRun`
  is the masked run.
- With no lane on: `AllOffSoundness`, `AllOffLoops` and `Predication` state the results, and
  `AllOffWitnesses` what goes wrong.
- With lanes on: `LoopMasks` says where every lane is after each construct.  `LaneMeaning`
  is plain C for one lane, and `LaneCode` in it the code for which the two are compared;
  `LaneRoles`, `LaneValues`, `LaneStores`, `LaneSteps`, `LaneLoops` and `LanesAgree` prove
  that the masked run follows every lane, and `LaneTheorems` states the results.

The order in which `EmitProgram` calls the operations is that of the `EmitCode` methods in
`src/stmt.cpp`.  For a varying `for` or `while` loop (lines 1165-1324): AND the test into
the mask, leave if no lane of the full mask is on, set the block-entry mask to the full
mask, run the body, `RestoreContinuedLanes`, `ClearBreakLanes`, step, and test again; after
the loop, `EndLoop`.  A varying `if` runs its sides predicated (lines 648-662) or branches
around a side in which no lane is on (`emitMaskMixed`, lines 808-852); `anyCheck` says
which.

A run carries a bound on the iterations of each loop execution; a run that wants more is
`Stuck` (the gang) or `Unfinished` (a lane).  Every theorem is for all bounds, and the
termination results quantify over them.

## Where the code falls short

`Break` jumps straight to the break target when everything between it and the loop is
uniform.  It does not look at `continueLanes`, so lanes that a `continue` under a varying
test has parked there leave the loop together with the others:
`while (...) { if (varying test) continue; break; }`.  `Shortcuts.BreakJumpLosesLanes` is a
run of two lanes, with all coherence checks on, in which the gang and the lane that
continued end with different variables.  `Shortcuts.BreakJumpExact` says when the jump is
right: for a body that ends in it, every lane leaves the loop with the result of its own
loop, whatever the step of the loop is, if and only if no lane's own run of the body
continues.  (For a single step the results may agree by accident.)  The model records the
lanes that are left behind in `lost`, which nothing reads.  Neither the simulation nor the
invariants assume that it is empty: the mask invariants hold in every run, and lane
simulation holds for each lane that is not in it.  `NoLoss` gives a condition on the program
text (no such break after a continue that parks lanes) under which it stays empty.

`SafeToRunWithMaskAllOff` is asked whether code can be run although no lane is on: by an
`if` and a `?:` that are to be straight-line code, by `&&` and `||`, and at case labels.
It takes code for safe that can do harm.  `AllOffWitnesses` has a program for each kind,
with the states in which it goes wrong; the exact conditions are in `Predication` and
`AllOffLoops`.

- Compound division, `x /= y` and `x %= y`: the callback looks for `/` and `%` only in
  `BinaryExpr`.  Unless the divisor is a constant, the division of a gang that is not all
  on goes through `foreach_active`, which runs once even if no lane is on, and then for an
  element past the last lane (`src/ctx.cpp:1730-1801`, `builtins/generic.ispc:283-299`,
  `src/stmt.cpp:2396-2451`).  `CompoundDivisionExact` and `PredicatedDivisionFaults`.
- Loops with uniform control flow: `while (all(v < 1)) ++v;` ends when lanes are on, and
  never when none is, because `all` is then true.  `ForEndsIff`, `DoEndsIff` and
  `OneIterationDecides` say which loops end, and `CountLoopRunsOn` and `CountLoopEnds` are
  about this one.  (Its estimated cost, `src/stmt.cpp:712-722`, keeps this loop from being
  predicated unless coherent control flow is disabled.)  A loop whose lanes have all
  returned is in the same position: `ReturnLoopRunsOn`.
- Stores that no mask holds back.  The callback asks whether the type of an assignment is
  uniform, and three kinds of store get past that.
  - A structure of varying type may have `uniform` members, and `maskedStore` stores those
    as they are: `if (v) s = t;` and `return t;`.  `UniformMemberOverwritten`.
  - A function with a uniform result stores it whatever the mask is.
    `UniformResultOverwritten`, with a state in `UniformResultIsWrong`.
  - `lStoreAssignResult` stores without a mask to a variable that was declared at the same
    varying depth.  Within one run of a statement that is right: lanes that are off at that
    depth have left the scope of the variable for good (`ScopeStores.UnmaskedStoreAgrees`),
    and in an `if` nothing from outside is at the same depth (`OuterStoresAreMasked`).  But
    operands of `?:`, `&&` and `||` open no varying construct: `v ? (x = 1) : 0` sets `x` in
    every lane, active lanes whose test is false included.  `SelectWritesEveryLane`.

  `StoreExact`, `AssignExact` and `ReturnExact` give the exact condition: with no lane on
  the store does nothing if and only if each uniform part already holds the value, and, if
  the variable is as deep as its declaration and no pointer, reference or static, each
  varying part does so in every lane.
- At a label only the first statement is looked at, since the parser attaches no other to
  it: in `case 1: x = 0; u = 7;` the check of the mask is left out for `x = 0`, and `u`
  becomes 7 although no lane is there.  `UniformStoreAtLabel`; `UncheckedLabelExact` says
  of assignments of constants that leaving it out is right if and only if none of them, up
  to the next label, spills, and `ChecksAgree` says of a whole switch that it is right if
  all statements at unchecked labels are safe and spill nothing.
- `&&` and `||` evaluate a safe second operand in every lane that is on, not just where the
  first one leaves the result open: `v && (x = 1)` sets `x` where `v` is false.
  `AndAssigns`, `LogicalAssignExact`; if the second operand only computes, there is no
  difference (`LogicalAgrees`).

`RunAllOff` proves for all code that is found safe, but for harmful compound divisions, that
with no lane on it does not fault, writes nothing but the variables that `Changes` reads off
its text (its own, and those of the stores above), and ends unless a uniform loop does not.
Where `Changes` has none but its own, predication equals branching
(`PredicationEqualsBranching`, `SelectPredicated`, `LabelPredicated`).

The same store is wrong for the variable of a loop.  `ForStmt::EmitCode` starts the loop
before it emits the init (`src/stmt.cpp:1189-1199`), so a variable that is declared there has
the varying depth of the body and is stored to without a mask in it.  The comment in
`src/expr.cpp:1191-1196` says that lanes that are off will not run again before it goes out of
scope; but a lane that a `continue` has parked comes back on for the step:
`for (int i = 0; i < n; ++i) { if (v) continue; i = 7; }` sets `i` to 7 also where `v` holds.
`LaneTheorems.ParkedLaneExact`: the parked lane comes back with what it had if and only if
the variable is not as deep as the loop, or holds the value already.  The simulation assumes
of a body that parks lanes that it has no such store, and no break that jumps past them as
above; `ConditionExcludes` ties the two.

`JumpIfAllLoopLanesAreDone` compares all lanes that have broken, continued or returned with
the block-entry mask.  A lane that returned in an earlier iteration is among the former and
not among the latter, so that from then on the check never fires
(`JumpConditions.EarlierReturnHidesTheEnd`).  This costs time, not results.

The test driver takes a test that is called `STOP` for the end of its queue, and then waits
forever; `TestQueue.JoinReturnsIffNoTestIsStop` gives both directions.

## Model

| member | source | states |
|---|---|---|
| EmitContext.FunctionEmitContext.constructor | src/ctx.cpp:225-276 | a fresh context has all lanes on internally, no lane returned, no targets, no frames and no tables |
| EmitContext.FunctionEmitContext.GetFunctionMask | src/ctx.cpp:433 | all on for a function that takes no mask |
| EmitContext.FunctionEmitContext.GetFullMask | src/ctx.cpp:437-444 | the lanes on in both the internal and the function mask, which is also what `__mask` reads |
| EmitContext.FunctionEmitContext.SetInternalMask | src/ctx.cpp:457-463 | only the internal mask changes, and the memory behind `__mask` follows it |
| EmitContext.FunctionEmitContext.SetInternalMaskAnd | src/ctx.cpp:465-468 | the internal mask becomes the lanes of the old mask that pass the test |
| EmitContext.FunctionEmitContext.SetInternalMaskAndNot | src/ctx.cpp:470-474 | the internal mask becomes the lanes of the old mask that fail the test |
| EmitContext.FunctionEmitContext.SetBlockEntryMask | src/ctx.cpp:455 | the mask at the start of a loop body or switch is remembered, nothing else changes |
| EmitContext.FunctionEmitContext.RestoreMaskGivenReturns | src/ctx.cpp:642-655 | the old mask comes back without the lanes that have returned, unless the code is dead |
| EmitContext.FunctionEmitContext.StartUniformIf | src/ctx.cpp:495-497 | one more frame, which saves the current mask |
| EmitContext.FunctionEmitContext.StartVaryingIf | src/ctx.cpp:499-501 | one more frame, which saves the mask in front of the if |
| EmitContext.FunctionEmitContext.EndIf | src/ctx.cpp:503-557 | the frame is gone; after a varying if exactly the lanes that entered it and have not returned, broken or continued are on |
| EmitContext.FunctionEmitContext.PopCFState | src/ctx.cpp:4124-4161 | targets, lane mask addresses, block-entry mask and switch labels are those saved by the popped frame, the tables of a popped switch are released, and no other table is |
| EmitContext.FunctionEmitContext.DeleteTable | src/ctx.cpp:4138-4146 | a table is released only while it is allocated, so never twice |
| EmitContext.FunctionEmitContext.StartLoop | src/ctx.cpp:560-585 | the enclosing loop state is saved; a varying loop gets empty lane masks of its own, a uniform one gets none |
| EmitContext.FunctionEmitContext.EndLoop | src/ctx.cpp:587-599 | the enclosing loop state is back; after a uniform loop the mask is the one at its end, and after a varying one every lane of before is on that has not returned |
| EmitContext.FunctionEmitContext.RestoreContinuedLanes | src/ctx.cpp:851-864 | continued lanes come back on and are forgotten |
| EmitContext.FunctionEmitContext.ClearBreakLanes | src/ctx.cpp:866-873 | broken lanes are forgotten and stay off |
| EmitContext.FunctionEmitContext.InSwitchStatement | src/ctx.cpp:657-672 | true exactly if the innermost construct other than an if is a switch |
| EmitContext.FunctionEmitContext.IfsInCFAllUniform | src/ctx.cpp:792-806 | true exactly if nothing inside the innermost construct of the kind is varying |
| EmitContext.FunctionEmitContext.VaryingCFDepth | src/ctx.cpp:1218-1226 | the number of varying frames |
| EmitContext.FunctionEmitContext.GetMaskAtSwitchEntry | src/ctx.cpp:926-936 | the mask saved by the innermost switch |
| EmitContext.FunctionEmitContext.JumpIfAllLoopLanesAreDone | src/ctx.cpp:808-849 | control leaves for the target exactly if the finished lanes of the function mask are the block-entry mask |
| EmitContext.FunctionEmitContext.Break | src/ctx.cpp:674-737 | jumps, or records the active lanes as broken and turns them off, in the same cases as the code |
| EmitContext.FunctionEmitContext.Continue | src/ctx.cpp:748-790 | jumps, or records the active lanes as continued and turns them off |
| EmitContext.FunctionEmitContext.StoreVar | src/ctx.cpp:3371-3391 | a store changes the lanes of the full mask and no other |
| EmitContext.FunctionEmitContext.StoreReturnValues | src/ctx.cpp:1313-1322 | a returned value goes to the lanes of the internal mask, earlier returns are kept |
| EmitContext.FunctionEmitContext.CurrentLanesReturned | src/ctx.cpp:1284-1361 | leaves the function at varying depth 0 or when every lane has returned, else records the active lanes as returned |
| EmitContext.FunctionEmitContext.StartSwitch | src/ctx.cpp:875-896 | loop and switch state are saved; the switch has empty break lanes, no continue target and no tables |
| EmitContext.FunctionEmitContext.SwitchInst | src/ctx.cpp:1163-1216 | allocates two tables that nobody else has; a uniform value jumps to its label, a varying one turns all lanes off and goes to the first label |
| EmitContext.FunctionEmitContext.EndSwitch | src/ctx.cpp:898-905 | the enclosing state is back and, after a varying switch, every lane that has not returned |
| EmitContext.FunctionEmitContext.EmitDefaultLabel | src/ctx.cpp:938-1057 | turns on the lanes live at the switch whose value is that of no case label |
| EmitContext.FunctionEmitContext.MatchesNoCase | src/ctx.cpp:1031-1044 | the loop over the cases leaves exactly the lanes that match none of them |
| EmitContext.FunctionEmitContext.EmitCaseLabel | src/ctx.cpp:1060-1160 | turns on the lanes live at the switch that have the label's value |
| EmitContext.FunctionEmitContext.TurnOn | src/ctx.cpp:910-924 | control skips to the next label exactly if the check is wanted and no lane is on |
| EmitProgram.Execute | src/stmt.cpp:492-578 | driving the object through any statement is the masked run of that statement, and all its bookkeeping, allocated tables included, is afterwards what it was before |
| EmitProgram.ExecuteVaryingIf | src/stmt.cpp:648-852 | both sides of an if under complementary masks, then the mask of before |
| EmitProgram.Iterate | src/stmt.cpp:1165-1324 | the loop protocol, as a loop over the object |
| EmitProgram.OneIteration | src/stmt.cpp:1235-1306 | the loop goes on exactly if a lane of the full mask is on |
| EmitProgram.ExecuteSwitch | src/stmt.cpp:3045-3111 | a switch leaves targets, labels and tables as they were |
| EmitProgram.ExecuteCall | src/ctx.cpp:225-276 | end to end: if the object does not stop on the bound, every lane of the function mask that no break jump left behind has the variables and the return value of its own run, other lanes are unchanged, and no table is left; if the text's break jumps are safe, no lane is left behind and the object stops on the bound exactly if some lane does |
| StackDiscipline.Discipline | src/ctx.cpp:4124-4161 | on every path, jumps included, a statement leaves targets, saved addresses, block-entry mask, switch labels and frames as it found them, and returned lanes only grow |
| StackDiscipline.EndUndoesStart | src/ctx.cpp:495-517 | whatever happened to masks and memory in between, the end of a construct undoes its start |
| JumpConditions.InSwitchExact | src/ctx.cpp:657-672 | the test is true exactly if there is a switch with nothing but ifs inside it |
| JumpConditions.AllUniformExact | src/ctx.cpp:792-806 | the test is true exactly if every varying frame has one of the kind further in or is one |
| JumpConditions.VaryingDepthExact | src/ctx.cpp:1218-1226 | the depth is the size of the set of varying frames |
| JumpConditions.SwitchEntryExact | src/ctx.cpp:926-936 | the mask is that of the last switch frame, wherever it is |
| JumpConditions.CheckExact | src/ctx.cpp:808-849 | control leaves if and only if the lanes that have broken, continued or returned in the function mask are exactly those of the block-entry mask |
| JumpConditions.BreakExact | src/ctx.cpp:674-737 | break jumps with the masks as they are if nothing varying is in between; else exactly the active lanes are recorded and turned off, and control leaves exactly if the check is wanted and all have stopped |
| JumpConditions.ContinueExact | src/ctx.cpp:748-790 | the same for continue |
| JumpConditions.ReturnLeaves | src/ctx.cpp:1326-1355 | a return leaves the function exactly if nothing around it is varying, or it is coherent and no lane of the function mask is left |
| JumpConditions.EarlierReturnHidesTheEnd | src/ctx.cpp:808-849 | once a lane has returned before the iteration, the check after a break never fires, even with no lane on |
| JumpConditions.UniformLoopExact | src/ctx.cpp:560-599 | in a loop with uniform control flow break goes to the break target and continue to the continue target with the masks as they are; lanes that are on at its end are on after it, and those that are off stay off |
| LaneSimulation.Simulate | src/ctx.cpp:499-599 | for every statement in every context: the mask invariant is kept, every lane is accounted for by the masks, lanes that are off do nothing, jumps are sound, and for each lane that is not left behind the masked run and its scalar run agree on variables, return values and on how it left |
| GangTheorems.GangEqualsLanes | src/ctx.cpp:642-786 | lane simulation for whole functions, for every bound, input and function mask, lane by lane for all that are not left behind |
| GangTheorems.StuckIffSomeLaneIs | src/ctx.cpp:476-484 | with nobody left behind the gang stops on a bound exactly if some lane does |
| GangTheorems.GangEndsIffLanesEnd | src/ctx.cpp:476-484 | a masked run that ends ends every lane it does not leave behind; if all lanes end, so does the masked run, unless it leaves one behind; if it never does, the two are equivalent |
| Shortcuts.SafeCallsEndTogether | src/ctx.cpp:476-484 | for a text with safe break jumps the masked run ends if and only if the scalar run of every lane in the function mask ends |
| GangTheorems.LoopEndsIffLanesDo | src/ctx.cpp:560-599 | a loop ends within n iterations only if each active lane's own loop does that it does not leave behind, and if each does, unless it leaves one behind |
| GangTheorems.IterationsAreTheMaximum | src/ctx.cpp:851-873 | a loop that leaves no active lane behind runs for the maximum over its active lanes of the iterations each needs alone |
| Shortcuts.SafeLoopsRunTheMaximum | src/ctx.cpp:851-873 | so does every loop whose text has safe break jumps |
| SwitchLabels.TargetIsLabel | src/ctx.cpp:1024-1044 | a lane's label is the one with its value, or default exactly if no case has it, wherever default stands (section 6.8.4.2 of ISO/IEC 9899:2011) |
| SwitchLabels.DestinationIsTarget | src/ctx.cpp:1179-1194 | a uniform switch instruction goes to the block of that label |
| SwitchLabels.VaryingLabel | src/ctx.cpp:1139-1160 | each live lane comes on at its own label and at no other, and control skips a label exactly if no lane at all is on |
| SwitchSimulation.VaryingSwitchSimulation | src/ctx.cpp:1200-1214 | a varying switch does for each lane what a C switch does: start at its label, fall through until a break or return |
| SwitchSimulation.UniformSwitchSimulation | src/ctx.cpp:1176-1195 | so does a uniform switch, whose breaks may jump |
| Shortcuts.EarlyJumpIsSound | src/ctx.cpp:808-849 | when control has left for a target, no active lane wanted to go on that was not left behind before, and, in every run, no skipped end of an if or label would turn a lane back on |
| Shortcuts.LiveAtDepthZero | src/ctx.cpp:1326-1334 | with no varying control flow around, the live lanes are the function mask minus the returned lanes |
| Shortcuts.CoherentReturnExits | src/ctx.cpp:1339-1355 | the coherent exit is taken exactly if every lane of the function mask has returned |
| Shortcuts.ContinueJumpAgrees | src/ctx.cpp:756-777 | the direct jump of continue reaches the next iteration in the same state as a continue under a varying test, through the lane masks and `RestoreContinuedLanes`, always |
| Shortcuts.BreakJumpAgrees | src/ctx.cpp:695-719 | the direct jump of break leaves the loop in the same state as a break under a varying test, through the lane masks, if no lane is parked in `continueLanes` |
| Shortcuts.LeftBehindContinued | src/ctx.cpp:695-703 | at a break jump the lanes left behind are exactly those whose own run of the body continued |
| Shortcuts.BreakJumpExact | src/ctx.cpp:695-703 | if a loop body ends in the direct jump of break, every lane leaves the loop with the result of its own loop, for every step the loop may have, if and only if no lane's own run of the body continues |
| Shortcuts.BreakJumpLosesLanes | src/ctx.cpp:695-703 | a run of two lanes, coherence checks on, that ends with other variables than the first lane's own run |
| Shortcuts.ShortcutsAgree | src/ctx.cpp:756-786 | with all coherence checks, mask checks and direct jumps the results are those of the same program without any, for every lane that is not left behind |
| NoLoss.NothingLost | src/ctx.cpp:674-737 | if no direct break follows a continue that parks lanes, nobody is left behind |
| Shortcuts.SafeJumpsLoseNothing | src/ctx.cpp:695-719 | the same for whole functions |
| ReachableMasks.MasksStayConsistent | src/ctx.cpp:437-557 | in every state before or after a statement, a loop test or the code of a label that a run goes through, lanes of the function mask have at most one of the roles active, broken, continued, returned; active lanes lie in every saved mask, saved masks shrink inward, returned lanes lie in the function mask; before and after statements the targets fit the stack |
| ScopeStores.LaterLanesWereOn | src/expr.cpp:1191-1196 | within the run of any statement, a lane that is on in some state was on in every earlier state that is as deep in varying control flow as the statement |
| ScopeStores.UnmaskedStoreAgrees | src/expr.cpp:1184-1203 | so a store to a variable declared at the same varying depth may leave out the mask: no lane that is on later in the run of the statement can tell (the variable of a loop header lives longer, see `LaneTheorems.ParkedLaneExact`) |
| AllOffSafety.WalkAST | src/ast.cpp:187-327 | the walk clears the flag exactly if there is a hazard (a call that may be unsafe, an index not known to be in bounds, a division, a dereference, an assignment to something uniform, ...) that it comes to, and gives the tree back |
| AllOffSafety.SafeToRunWithMaskAllOff | src/ast.cpp:614-618 | the verdict is false if and only if the tree has such a hazard outside the arguments of calls without a callee |
| AllOffSafety.SafeExact | src/ast.cpp:460-612 | both directions, with the hazards stated without the callback |
| AllOffSafety.VariabilityExact | src/expr.cpp:2363-2450 | an operator on variables and constants is varying if and only if one of these is |
| AllOffSoundness.GoodParts | src/ast.cpp:460-612 | what the callback guarantees of a node, and that it looks at every child of safe code, but for a call without a callee |
| AllOffSoundness.StoreAllOff | src/ctx.cpp:3350-3391 | with no lane on, a store to a variable, a member or an element writes only if it spills: to a uniform part, or to a variable as deep as its declaration |
| AllOffSoundness.RunAllOff | src/ast.cpp:457-618 | code that is found safe can be run with no lane on: but for harmful compound divisions it does not fault, it writes nothing but the variables that its text says (its own, and those that no mask holds back), and it ends unless it has a uniform loop |
| AllOffLoops.ForEndsIff | src/stmt.cpp:1165-1324 | with no lane on, a safe for loop ends at its first test if that is varying, and one with uniform control flow whose iterations leave no trace if and only if its test is zero after the init or its first iteration breaks, and else runs on for every bound |
| AllOffLoops.DoEndsIff | src/stmt.cpp:934-1068 | the same for do loops, which run their body first |
| AllOffLoops.ForFromHead | src/stmt.cpp:1204-1306 | the same from any loop test on: what a loop does once its lanes have gone |
| AllOffWitnesses.ReturnLoopRunsOn | src/stmt.cpp:925-929 | `while (true) return 1;` is a uniform loop, and never ends while a lane of the function waits outside |
| AllOffLoops.OneIterationDecides | src/stmt.cpp:1165-1324 | with no lane on, safe code whose uniform loops leave no trace does the same for every bound but zero |
| Predication.PredicationEqualsBranching | src/stmt.cpp:712-726 | an if with safe sides that write only variables of their own gives the same as straight-line code as with branches, for every mask, or does not end because of a uniform loop in a side |
| Predication.OuterStoresAreMasked | src/expr.cpp:1184-1203 | code in a varying construct whose stores go to variables of its own, or without uniform members to ones declared further out, writes only its own with no lane on |
| Predication.SelectPredicated | src/expr.cpp:3847-3896 | a `?:` whose operands are safe and spill nothing may evaluate an operand that no lane wants: the same state, and the same value in the lanes that are on |
| Predication.LogicalRuns | src/expr.cpp:2025-2058 | the logical operators without short-circuit evaluation run the second operand under the whole mask, with it under the lanes in which the first leaves the result open |
| Predication.LogicalAgrees | src/expr.cpp:2053-2210 | the two give the same state and truth values if the second operand only computes |
| Predication.LogicalAssignExact | src/expr.cpp:2053-2210 | if the second operand is an assignment, they leave the same state if and only if the variable already holds the value in the lanes that only the first way writes |
| Predication.StoreExact | src/ctx.cpp:3089-3115 | with no lane on, a store does nothing if and only if every part that it writes regardless of the mask already holds the value |
| Predication.AssignExact | src/expr.cpp:1184-1203 | an assignment is found safe if and only if its variable is not uniform and its right side is safe; with no lane on it does nothing under that condition and no other |
| Predication.CompoundDivisionExact | src/expr.cpp:3392-3449 | a compound division is found safe; with no lane on it runs through if and only if the divisor is a constant other than zero, or no constant and what lies past the last lane is not zero, and else faults |
| AllOffWitnesses.PredicatedDivisionFaults | src/stmt.cpp:712-726 | `if (y) x /= y;` passes as safe; when no lane has a y other than zero, branching does nothing and predication can fault |
| AllOffWitnesses.CountLoopRunsOn | stdlib/stdlib.ispc:772-786 | `while (all(v < 1)) ++v;` passes the analysis and never ends with no lane on |
| AllOffWitnesses.CountLoopEnds | stdlib/stdlib.ispc:772-786 | with a lane on it ends |
| Predication.ReturnExact | src/ctx.cpp:1311-1322 | a return passes the analysis, and with no lane on does nothing if and only if the uniform parts of the result, all of it in a function with a uniform result, are already there |
| Predication.LabelPredicated | src/stmt.cpp:2886-2888 | the statements at a label do what skipping them does when no lane is there, if all of them are safe and spill nothing |
| Predication.ChecksAgree | src/stmt.cpp:2877-2897 | then a varying switch does the same, for every mask, with and without the check of the mask |
| Predication.UncheckedLabelExact | src/parse.yy:2407-2423 | constants assigned at a label may be assigned unchecked, in every state with no lane there, if and only if none of the statements spills, the first one or any other |
| AllOffWitnesses.UniformMemberOverwritten | docs/ispc.rst:3635-3661 | `if (v) s = t;` passes as safe; in every state in which no lane passes the guard, branching does nothing and predication overwrites the uniform member |
| AllOffWitnesses.UniformResultOverwritten | src/ctx.cpp:1311-1313 | `if (v) return 7;` passes as safe, and predicated it returns 7 when no lane returns |
| AllOffWitnesses.UniformResultIsWrong | src/ctx.cpp:1311-1313 | a state in which the two differ |
| AllOffWitnesses.SelectWritesEveryLane | src/expr.cpp:1187-1199 | `v ? (x = 1) : 0` passes as safe; when v is true in no lane that is on, it sets x in every lane, and skipping the operand changes nothing |
| AllOffWitnesses.AndAssigns | src/expr.cpp:2025-2052 | `v && (x = 1)` differs from short-circuit evaluation in every state with a lane on where v is false and x is not 1 |
| AllOffWitnesses.UniformStoreAtLabel | src/stmt.cpp:2877-2897 | `case 1: x = 0; u = 7;` is not checked, and sets u when no lane is there |
| LoopMasks.RunConserves | src/ctx.cpp:642-655 | whatever a statement does, each lane that was on is still on or has broken, continued or returned, one of the three; no other lane changes its place, and code without jumps changes none |
| LoopMasks.ForIterates | src/stmt.cpp:1301-1305 | the step of a for loop runs with exactly the lanes that started the body and have neither broken nor returned, those that continued included |
| LoopMasks.DoIterates | src/stmt.cpp:1035-1041 | the same for the test of a do loop |
| LoopMasks.AfterLoop | src/ctx.cpp:587-599 | after a loop, uniform or varying, exactly the lanes are on that entered it and have not returned |
| LaneRoles.VaryingFlowExact | src/stmt.cpp:881-929 | a loop body has varying control flow if and only if it has a break or continue of its own under a varying if |
| LaneValues.RunEven | docs/ispc.rst:2532-2545 | an expression of uniform type, and a uniform part of a variable, has the same value in all lanes, on or off |
| LaneStores.StoresOn | src/expr.cpp:1184-1203 | an assignment to a variable, member or element does to a lane that is on, and to the uniform variables, what plain C does |
| LaneStores.StoresOff | src/expr.cpp:1184-1203 | for a lane that is off it changes nothing but what no mask holds back |
| LaneSteps.NodeTracks | src/ctx.cpp:3350-3391 | each kind of expression and simple statement gives a lane that is on its own value and variables, and records it as what it is when it leaves |
| LaneSteps.NodeFaultsExact | src/ctx.cpp:1730-1801 | while some lane is on, an operation faults if and only if it does in a lane that is on |
| LanesAgree.RunTracks | src/stmt.cpp:492-578 | for every lane and tree: a lane that is on follows its own C run to the same variables, value and way of leaving, one that has left keeps its variables but for unmasked stores, and so does one that was off |
| LanesAgree.SidesTrack | src/stmt.cpp:648-852 | a lane takes the side of a varying if that its own test says, predicated or branched around |
| LanesAgree.OperandsTrack | src/expr.cpp:3847-3896 | and of a `?:` the operand |
| LanesAgree.LogicalTracks | src/expr.cpp:2025-2210 | the logical operators, in each way they are emitted, give a lane the value and effects of short-circuit evaluation |
| LanesAgree.ForAgrees | src/stmt.cpp:1165-1324 | a for loop, uniform or varying, from any head on does for each lane what the lane's own loop does, whichever iteration it breaks, continues, returns or stops in |
| LanesAgree.DoAgrees | src/stmt.cpp:934-1068 | so does a do loop |
| LanesAgree.LabelsAgree | src/stmt.cpp:3045-3111 | the labels of a switch, from any on, do for a lane what a C switch does from its own label on |
| LaneTheorems.GangFollowsLanes | docs/ispc.rst:2326-2331 | for a function: a lane is still on if and only if it comes to the end by itself, is recorded as returned if and only if it does return, and has the variables of its own serial run |
| LaneTheorems.LanesAreIndependent | docs/ispc.rst:2326-2331 | what a lane gets does not depend on which other lanes run, or on their variables |
| LaneTheorems.ParkedLaneExact | src/expr.cpp:1191-1196 | a lane parked by a continue comes back with its variables if and only if the store that follows is to one less deep than the loop, or stores what is there |
| LaneTheorems.ConditionExcludes | src/stmt.cpp:1189-1199 | the condition on loop bodies excludes such a body exactly if its variable is as deep as the loop |
| VaryingCall.CallVarying | src/ctx.cpp:3772-3910 | every active lane goes through its own function and gets its result, other lanes are untouched, each pointer is called once under exactly its holders, and the mask is restored |
| VaryingCall.CountTrailingZeros | src/ctx.cpp:3822-3828 | the first pending lane |
| VaryingCall.OneMoreCalled | src/ctx.cpp:3893-3899 | turning off the lanes of a call keeps the remaining pointers distinct from the called ones |
| VaryingCall.EachLaneOnce | src/ctx.cpp:3773-3780 | every active lane is on in exactly one call, and it is a call of its own function |
| VaryingCall.OneCallPerPointer | src/ctx.cpp:3773-3780 | there are as many calls as distinct pointers among the active lanes |
| SliceIndex.LogWidth | src/ctx.cpp:2245-2251 | the loop takes the logarithm, and the assertion after it holds for exactly the powers of two |
| SliceIndex.MaskIsRemainder | src/ctx.cpp:2262-2263 | masking with width - 1 is the remainder, for negative numbers too |
| SliceIndex.ShiftIsDivision | src/ctx.cpp:2271-2273 | the arithmetic shift is division rounding down |
| SliceIndex.ComputeSliceIndex | src/ctx.cpp:2241-2273 | major times width plus minor is the sum that was computed, with the minor index in range |
| SliceIndex.ExactIffNoOverflow | src/ctx.cpp:2259-2260 | it is the mathematical sum if and only if the addition does not overflow |
| SliceIndex.GetElementPtr | src/ctx.cpp:2308-2333 | indexing a slice pointer, frozen or not |
| SliceIndex.IndexingMoves | src/ctx.cpp:2316-2327 | indexing moves by exactly that many elements, and leaves the slice in range |
| SliceIndex.IndexingComposes | src/ctx.cpp:2308-2333 | indexing by i and then by j is indexing by i + j, and indexing by 0 is nothing |
| BuiltinLinking.Chain | src/builtins.cpp:473-591 | the parent map has no cycle: every chain ends after at most seven targets |
| BuiltinLinking.ChainIsLineage | src/builtins.cpp:473-562 | every chain, target by target: no entry of the parent map skips an ancestor |
| BuiltinLinking.RootIsGeneric | src/builtins.cpp:473-562 | the root of a target with a parent is the generic target of the same gang size |
| BuiltinLinking.CollectAllDefinedFunctions | src/builtins.cpp:623-637 | the symbols to resolve are exactly the functions defined at the root of the chain whose names do not start with `llvm.` |
| BuiltinLinking.HasUnresolvedSymbols | src/builtins.cpp:594-603 | finds a used declaration that should have been resolved, if there is one |
| BuiltinLinking.LinkBuiltinsForTarget | src/builtins.cpp:639-647 | one link step keeps all definitions and resolves everything used that the library defines |
| BuiltinLinking.LinkTargetBuiltins | src/builtins.cpp:649-685 | always succeeds within the length of the chain; everything that the module uses in the end and the root library defines, but for names in `llvm.`, is defined; definitions are never replaced, each new one is that of a library of the chain, and for what the module declared the target's own library comes first; every linked built-in becomes internal |
| BuiltinLinking.NotAtRoot | src/builtins.cpp:673-679 | the error about an unresolved symbol is unreachable |
| BuiltinLinking.LinkAllIsOK | src/builtins.cpp:139-181 | the contract assumed of the linker can be met |
| TreeDump.Indent.Print | src/ast.cpp:43-73 | one line: a cell per ancestor, blank under a last child, then the branch, label and title |
| TreeDump.Indent.Done | src/ast.cpp:89-97 | a level is left once its last child is done |
| TreeDump.Indent.PrintNode | src/ast.h:19-48 | printing a node under the protocol takes one off the count of its level, balances Print and Done, and draws the subtree |
| TreeDump.Indent.PrintList | src/ast.h:19-48 | printing an announced list removes its level |
| TreeDump.Dump | src/ast.cpp:104-109 | the dump of one node: a list of one, balanced, and it determines the node |
| TreeDump.DumpAst | src/ast.cpp:151-180 | a whole dump leaves an empty stack and balanced counts, as the destructor asserts, and determines the trees |
| TreeDump.DumpParsesBack | src/ast.cpp:43-73 | a drawing is read back by its bars, blanks and branches, cell by cell, to the trees and their texts, with no line left over |
| TreeDump.TextReads | src/ast.cpp:66-69 | the text of a line tells the label from the title |
| PrintFormat.CopyTillSep | builtins/builtins-c-common.hpp:26-37 | copies up to the first separator or the end of the space and touches nothing else |
| PrintFormat.Fill | builtins/builtins-c-common.hpp:131-150 | written and left space add up to the same throughout, and the result is the truncated interpolation |
| PrintFormat.Format | builtins/builtins-c-common.hpp:126-153 | the first size - 1 characters of the format with its i-th percent sign replaced by the i-th argument, NUL-terminated |
| PrintFormat.GetFormattedStr | builtins/builtins-c-cpu.cpp:60-61 | the same in a buffer of 8196 characters |
| PrintFormat.InterpolationAppends | builtins/builtins-c-common.hpp:126-130 | interpolating a concatenation goes on with the argument after the last one used |
| ArgSplitting.ArgFactory.GetNextArg | src/args.cpp:304-337 | finds the next argument and leaves the cursor behind it |
| ArgSplitting.ArgFactory.CollectArg | src/args.cpp:319-334 | the loop with the quote flags collects one argument |
| ArgSplitting.ArgFactory.GetNextChar | src/args.cpp:345-371 | the next character, or NUL at the end for ever |
| ArgSplitting.SplitUndoesQuoting | src/args.cpp:304-337 | however words are built from plain, single- and double-quoted pieces and however they are spaced, splitting gives their meanings |
| ArgSplitting.RoundTrip | src/args.cpp:304-337 | every list of NUL-free arguments, empty ones included, has a rendering that splits back to it |
| ArgSplitting.JoinedSplits | src/args.cpp:304-337 | plain words with any one of the white space characters behind each, line ends included, split into these words |
| ArgExpansion.AddArgsFromFactory | src/args.cpp:383-391 | appends the expansion of everything the text splits into |
| ArgExpansion.AddSingleArg | src/args.cpp:409-427 | appends the expansion of one argument, recursively through files |
| ArgExpansion.GetAllArgs | src/args.cpp:434-445 | the in-order expansion of the command line and then of the environment variable |
| ArgExpansion.FullyExpanded | src/args.cpp:405-408 | nothing that names a readable file is left |
| ArgExpansion.UnreadableKept | src/args.cpp:409-427 | an @name that cannot be read is kept as it is |
| ArgExpansion.ExpandAppend | src/args.cpp:429-433 | expansion goes through a list in order |
| ArgExpansion.RankDoesNotMatter | src/args.cpp:409-427 | the result depends on the files alone |
| ArgExpansion.FileStandsForItsArgs | src/args.cpp:405-408 | a file that holds a rendering of arguments stands for exactly these |
| TestQueue.SetUp | scripts/run_tests.py:1251-1256 | the queue holds the tests in order and one STOP per worker |
| TestQueue.StepReaches | scripts/run_tests.py:828-869 | a schedule can be extended by any enabled step |
| TestQueue.ReachedInv | scripts/run_tests.py:828-869 | in every interleaving each item is in the queue, in one worker's hand or done, results and counter fit, and the lock keeps increments apart |
| TestQueue.LockStaysKept | scripts/run_tests.py:134-135 | only the holder of the lock is between reading and writing the counter |
| TestQueue.JoinMeansDone | scripts/run_tests.py:1281-1291 | when the join returns every test has been marked done once and has queued one result: Skip if it was skipped, Runfail if it raised, and else the status it returned; the counter is the number of tests, and each worker has finished on one STOP |
| TestQueue.SomeoneCanStep | scripts/run_tests.py:828-869 | until then some worker can step |
| TestQueue.SchedulesAreShort | scripts/run_tests.py:828-869 | no schedule is longer than eight steps per item |
| TestQueue.JoinReturnsIffNoTestIsStop | scripts/run_tests.py:1253-1256 | the join can return if and only if no test is called STOP |
| TestQueue.RunTests | scripts/run_tests.py:1251-1294 | a whole run under any scheduler ends, and collects exactly one result per test, with its status by the same cases |

## Left out

- GangTheorems.GangEqualsLanes: says nothing about the variables of a lane that a break jump has left behind, which may be wrong; `Shortcuts.BreakJumpExact` and `NoLoss.NothingLost` say when there is one.
- ReachableMasks.MasksStayConsistent: the states inside a single operation, such as an end of an iteration, are not among those it visits.
- EmitProgram.Execute: loops whose test is uniform are modelled in `StartLoop` and `EndLoop` but are not statements of `Lang`, and neither are `do` loops, whose test comes last; `LanesAgree` has both, without the object.
- LaneTheorems.GangFollowsLanes: is about runs of the gang that end; a uniform loop can run on although all its lanes have returned (`AllOffWitnesses.ReturnLoopRunsOn`), and code can fault with no lane on (`Predication.CompoundDivisionExact`).  `LaneCode` leaves out stores to uniform variables under varying control flow, for which the language promises no lane its own result (docs/ispc.rst:2601-2604), what is described above as going wrong, calls, pointers, computed element addresses in stores, and declarations at the labels of a varying switch outside of a scope of their own.  A lane that has left may find variables changed that are stored to without a mask.
- StackDiscipline.Discipline: covers the statements of `Lang`, so no uniform and no `do` loops.
- EmitContext.FunctionEmitContext.StoreVar: stores through the full mask, as for pointers, references and variables of other functions; for a local variable `lMaskForSymbol` (src/expr.cpp:1163-1180) gives the internal mask, and `lStoreAssignResult` (src/expr.cpp:1184-1203) stores without a mask to one declared at the same varying depth.  Lanes that are off may find other values there: lanes outside the function mask, lanes that have left, which by `ScopeStores.UnmaskedStoreAgrees` never look, and, inside operands of `?:` and the logical operators, which `Lang` does not have, active lanes whose test is false.  `AllOffRun` has these stores.
- `cif`, `cfor`, `cwhile` and `cdo`, which emit a second copy of the code for a mask that is all on.
- Labels of a switch stand at its top level, and there is no code in front of the first one.
- `foreach` in all its forms, `unmasked` and `goto`, which set up and restore masks in `src/stmt.cpp`.
- Xe hardware masks and emulated-uniform control flow, a second execution model beside the one here.
- Uniform variables are read but not stored to in `Lang`, and its expressions neither fault nor have effects; `AllOffRun` has a language with both.
- The LLVM values, blocks and debug information that the operations emit; a mask is the set of its lanes, a block a label, and a run follows one dynamic path.
- Return values are per lane in `Lang`; `AllOffRun` also has the uniform ones.
- AllOffSoundness.RunAllOff: leaves out harmful compound divisions, for which it is false, with the exact condition in `Predication.CompoundDivisionExact`; it assumes that a function declared safe does nothing with no lane on.  The exit of a return that finds every lane of the function mask returned, the overflow of a division by -1 and the cost limit on predicated code are not in it.
- AllOffSafety.WalkAST: a child is a value, so that writing it back is not an update in place; only the walk without a second callback is modelled.
- `AllOffSafety` has variables of atomic, structure and array types, with stores to whole variables, members and elements at a constant index; members of members, other computed addresses and `goto` are not in it; what pointer accesses, allocations, `foreach`, prints and assertions do is a parameter.
- AllOffLoops.ForEndsIff: is about loops whose test changes nothing and, if they are uniform, whose iterations leave no trace; a uniform one that counts with a variable as deep as the loop itself stores to it without a mask, and so may end.
- Predication.UncheckedLabelExact: is exact for assignments of constants; for other statements `LabelPredicated` gives one direction, and the exact condition of each single store is in `StoreExact`.
- VaryingCall.CallVarying: the functions that are called act on each lane separately, so their order does not show.
- SliceIndex.IndexingComposes: assumes that no sum overflows the index type; the truncation of the minor index to 32 bits is left out because it is less than the width.
- BuiltinLinking.LinkTargetBuiltins: the LLVM linker is a parameter with a contract, and the library of every target in the chain is assumed to be there.
- TreeDump.TextReads: assumes that a label has no closing parenthesis and that a title without a label does not start with an opening one; source positions and line breaks are left out.
- PrintFormat.Format: the text of each argument is given; choosing it by the type string and formatting numbers is not modelled.
- ArgExpansion.GetAllArgs: files that refer back to themselves are not modelled.
- TestQueue.JoinMeansDone: a worker process never dies, and what `run_test` does is any function from a test to a status or an exception.
- Type checking, optimization, option parsing, CPU detection, the run-time library and the build scripts are not modelled.
