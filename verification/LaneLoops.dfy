/** How a lane goes through the parts of a loop: on, waiting, or done with it. */
module LaneLoops {
  import opened MaskContext
  import opened AllOffSafety
  import opened AllOffRun
  import opened AllOffSoundness
  import opened LaneMeaning
  import opened LaneRoles
  import opened LaneStores
  import opened LaneSteps

  /** What is evaluated for its value keeps its lanes. */
  ghost predicate PartTracks(l: Lane, st: St, r: Result, own: LaneResult, names: set<string>)
  {
    && !r.Jumped?
    && (r.Done? ==>
          && |r.st.vars| == |st.vars| && r.st.broke == st.broke && r.st.continued == st.continued && LaneOK(l, r.st)
          && if l in st.mask then own.LaneDone? && Agrees(l, r.st, own.u, own.m) && SameValue(r.value, own.value, l)
             else Waits(l, st, r.st, names))
  }

  lemma PartMore(l: Lane, st: St, r: Result, own: LaneResult, names: set<string>, all: set<string>)
    requires PartTracks(l, st, r, own, names) && names <= all
    ensures PartTracks(l, st, r, own, all)
  {
    hide SameValue;
  }

  /** The head of a loop: no lane is recorded as broken or continued. */
  predicate HeadOK(l: Lane, st: St)
  {
    LaneOK(l, st) && l !in st.broke && l !in st.continued
  }

  /** Nothing changes for a lane that is off in st. */
  ghost predicate Rests(l: Lane, st: St, st1: St, names: set<string>)
  {
    && l < |st.vars| == |st1.vars| && (l in st1.returned <==> l in st.returned)
    && SameOutside(st.uni, st1.uni, names) && SameOutside(st.vars[l], st1.vars[l], names)
  }

  /** The lane is done with the loop, whose names may have changed since, or it has returned. */
  ghost predicate Through(l: Lane, st1: St, own: LaneResult, exact: bool, names: set<string>)
  {
    && l < |st1.vars|
    && if l in st1.returned then
         own.Left? && own.how == Returned
         && SameOutside(own.u, st1.uni, names) && SameOutside(own.m, st1.vars[l], names)
       else
         var changed := if exact then {} else names;
         own.LaneDone? && own.value == []
         && SameOutside(own.u, st1.uni, changed) && SameOutside(own.m, st1.vars[l], changed)
  }

  ghost predicate LoopTracks(l: Lane, st: St, r: Result, own: LaneResult, exact: bool, names: set<string>)
  {
    && !r.Jumped?
    && (r.Done? ==> if l in st.mask then Through(l, r.st, own, exact, names) else Rests(l, st, r.st, names))
  }

  function PastBreak(own: LaneResult): LaneResult
  {
    if own.Left? && own.how == Broke then LaneDone(own.u, own.m, []) else own
  }

  predicate GoesOn(own: LaneResult)
  {
    own.LaneDone? || (own.Left? && own.how == Continued)
  }

  /** From the start of an iteration's body to the next step or test. */
  ghost predicate NextTracks(l: Lane, st: St, next: St, own: LaneResult, exact: bool, names: set<string>)
  {
    && HeadOK(l, next) && |next.vars| == |st.vars|
    && if l !in st.mask then Waits(l, st, next, names)
       else if GoesOn(own) then Agrees(l, next, own.u, own.m)
       else l !in next.mask && Through(l, next, PastBreak(own), exact, names) && (exact ==> l in next.returned)
  }

  ghost predicate BodyTracks(l: Lane, st: St, r: Result, own: LaneResult, exact: bool, names: set<string>)
  {
    if r.Jumped? && r.toBreak then
      if l in st.mask then !GoesOn(own) && Through(l, r.st, PastBreak(own), exact, names) else Rests(l, st, r.st, names)
    else r.Done? || r.Jumped? ==> NextTracks(l, st, NextIteration(r.st), own, exact, names)
  }

  /** What the body's breaks and continues allow: no direct break while lanes are parked, and then no
      stores that these would see. */
  ghost predicate BodyJumps(st: St, r: Result, uniformLoop: bool, parks: bool, names: set<string>)
  {
    && (parks ==> names == {} && !uniformLoop)
    && (r.Done? || r.Jumped? ==>
          && |r.st.vars| == |st.vars|
          && (uniformLoop ==> r.st.broke == st.broke) && (!parks ==> r.st.continued == st.continued))
    && (r.Jumped? && r.toBreak ==> !parks)
  }

  lemma BodyFollows(
    l: Lane, st: St, r: Result, own: LaneResult, uniformLoop: bool, parks: bool, names: set<string>, all: set<string>)
    requires HeadOK(l, st) && Tracks(l, st, r, own, names) && names <= all
    requires BodyJumps(st, r, uniformLoop, parks, names)
    requires own.LaneDone? ==> own.value == []
    ensures BodyTracks(l, st, r, own, uniformLoop, all)
  {
    hide SameValue;
    if r.Done? || r.Jumped? {
      if l in st.mask && l !in r.st.mask && own.Left? && own.how == Continued {
        GoneSame(l, r.st, own, names);
      }
    }
  }

  predicate LaneStops(test: Node, own: LaneResult)
    requires own.LaneDone?
  {
    test.kind != Null && Number(own.value, 0) == 0
  }

  /** From a head to the start of the body, or to the end of the loop. */
  ghost predicate TestTracks(
    test: Node, uniformLoop: bool, l: Lane, st: St, t: Result, own: LaneResult, names: set<string>)
  {
    && !t.Jumped?
    && (t.Done? ==>
          var start := Tested(test, uniformLoop, t);
          && HeadOK(l, start) && |start.vars| == |st.vars|
          && if l !in st.mask then Waits(l, st, start, names)
             else
               && own.LaneDone? && start.uni == own.u && start.vars[l] == own.m && l !in start.returned
               && (l in start.mask <==> uniformLoop || !LaneStops(test, own))
               && (Stops(test, uniformLoop, t) ==> LaneStops(test, own))
               && (uniformLoop && LaneStops(test, own) ==> Stops(test, uniformLoop, t)))
  }

  lemma TestFollows(
    test: Node, uniformLoop: bool, l: Lane, st: St, t: Result, own: LaneResult, names: set<string>)
    requires HeadOK(l, st) && PartTracks(l, st, t, own, names)
    requires uniformLoop && test.kind != Null && t.Done? ==> InLane(Part(t.value, 0), 0) == InLane(Part(t.value, 0), l)
    ensures TestTracks(test, uniformLoop, l, st, t, own, names)
  {
    hide SameOutside;
    if t.Done? && l in st.mask {
      assert Number(own.value, 0) == InLane(Part(t.value, 0), l);
      assert !uniformLoop ==>
        (l in TrueLanes(t.st, TestValue(test, t)) <==> InLane(TestValue(test, t), l) != 0);
    }
  }

  // ---------- composition ----------

  lemma RestsOn(l: Lane, a: St, b: St, c: St, names: set<string>)
    requires Waits(l, a, b, names) || Rests(l, a, b, names)
    requires Rests(l, b, c, names)
    ensures Rests(l, a, c, names)
  {
  }

  lemma WaitsRests(l: Lane, a: St, b: St, names: set<string>)
    requires Waits(l, a, b, names)
    ensures Rests(l, a, b, names)
  {
    hide SameOutside;
  }

  lemma ThroughOn(l: Lane, b: St, c: St, own: LaneResult, exact: bool, names: set<string>)
    requires Through(l, b, own, exact, names) && (exact ==> l in b.returned)
    requires Waits(l, b, c, names) || Rests(l, b, c, names)
    ensures Through(l, c, own, exact, names)
  {
  }

  lemma ThroughNow(l: Lane, st: St, u: Memory, m: Memory, exact: bool, names: set<string>)
    requires l < |st.vars| && l !in st.returned && u == st.uni && m == st.vars[l]
    ensures Through(l, st, LaneDone(u, m, []), exact, names)
  {
  }

  /** From the start of a body past the step, `own` being what the lane has done by then. */
  lemma IterationFollows(
    l: Lane, st: St, next: St, own: LaneResult, s: Result, own1: LaneResult, exact: bool, names: set<string>)
    requires NextTracks(l, st, next, own, exact, names) && PartTracks(l, next, s, own1, names) && s.Done?
    requires l in st.mask && GoesOn(own) ==> own1.LaneDone?
    ensures NextTracks(l, st, s.st, if GoesOn(own) then own1 else own, exact, names)
  {
    hide SameOutside, SameValue;
    if l !in st.mask {
      WaitsOn(l, st, next, s.st, names, names, names);
    } else if !GoesOn(own) {
      ThroughOn(l, next, s.st, PastBreak(own), exact, names);
    }
  }

  /** The rest of the loop after an iteration. */
  lemma LoopFollows(
    l: Lane, st: St, next: St, own: LaneResult, r: Result, rest: LaneResult, exact: bool, names: set<string>)
    requires NextTracks(l, st, next, own, exact, names) && LoopTracks(l, next, r, rest, exact, names)
    ensures LoopTracks(l, st, r, if GoesOn(own) then rest else PastBreak(own), exact, names)
  {
    hide SameOutside;
    if r.Done? {
      if l !in st.mask {
        RestsOn(l, st, next, r.st, names);
      } else if !GoesOn(own) {
        ThroughOn(l, next, r.st, PastBreak(own), exact, names);
      }
    }
  }

  lemma AnyLoop(l: Lane, st: St, r: Result, own: LaneResult, any: LaneResult, exact: bool, names: set<string>)
    requires LoopTracks(l, st, r, own, exact, names) && l !in st.mask
    ensures LoopTracks(l, st, r, any, exact, names)
  {
  }

  /** A loop from its test on; r and own are what follows if the test does not end it. */
  lemma TestLoop(
    test: Node, l: Lane, st: St, t: Result, own: LaneResult, r: Result, rest: LaneResult,
    exact: bool, names: set<string>)
    requires LaneOK(l, st) && TestTracks(test, exact, l, st, t, own, names) && t.Done?
    requires !Stops(test, exact, t) ==> LoopTracks(l, Tested(test, exact, t), r, rest, exact, names)
    ensures
      LoopTracks(l, st, if Stops(test, exact, t) then Done(Tested(test, exact, t), []) else r,
                 if own.LaneDone? && LaneStops(test, own) then LaneDone(own.u, own.m, []) else rest, exact, names)
  {
    var start := Tested(test, exact, t);
    hide SameOutside, Tested;
    if l !in st.mask {
      WaitsRests(l, st, start, names);
      if !Stops(test, exact, t) && r.Done? {
        RestsOn(l, st, start, r.st, names);
      }
    } else if LaneStops(test, own) {
      ThroughNow(l, start, own.u, own.m, exact, names);
      if !Stops(test, exact, t) && r.Done? {
        ThroughOn(l, start, r.st, LaneDone(own.u, own.m, []), exact, names);
      }
    }
  }

  lemma NoLoop(l: Lane, st: St, r: Result, own: LaneResult, exact: bool, names: set<string>)
    requires r.Fault? || r.Unfinished?
    ensures LoopTracks(l, st, r, own, exact, names)
  {
  }

  /** The end of a loop that was entered in st and came to its head in st1. */
  lemma LoopEnds(
    l: Lane, st: St, st1: St, r: Result, own: LaneResult, exact: bool, names: set<string>, locals: set<string>)
    requires LaneOK(l, st) && |st1.vars| == |st.vars| && LoopTracks(l, EnterLoop(st1), r, own, exact, names)
    requires r.Done? ==> |r.st.vars| == |st.vars|
    requires !exact ==> names <= locals
    requires if l in st.mask then l in st1.mask else Waits(l, st, st1, names)
    ensures
      Tracks(l, st, Leave(st, FinishLoop(st, r), locals), LeaveLane(st.uni, st.vars[l], own, locals), names - locals)
  {
    if r.Done? {
      OutsideIsAfter(st.uni, r.st.uni, locals);
      OutsideIsAfter(st.vars[l], r.st.vars[l], locals);
      hide Outside, After;
      if l !in st.mask {
        RestsOn(l, st, EnterLoop(st1), r.st, names);
        AfterSelf(st.uni, locals);
        AfterSelf(st.vars[l], locals);
        AfterEqual(st.uni, st.uni, r.st.uni, names, locals);
        AfterEqual(st.vars[l], st.vars[l], r.st.vars[l], names, locals);
      } else {
        NothingSame(l);
        LaneLeaves(l, st, r.st, own, exact, names, names, locals);
      }
      hide SameOutside, SameValue;
    }
  }

  /** The end of a loop without names of its own. */
  lemma BareLoopEnds(l: Lane, st: St, r: Result, own: LaneResult, exact: bool, names: set<string>)
    requires LaneOK(l, st) && LoopTracks(l, EnterLoop(st), r, own, exact, names)
    requires (r.Done? ==> |r.st.vars| == |st.vars|) && (!exact ==> names == {})
    ensures Tracks(l, st, FinishLoop(st, r), own, names)
  {
    if r.Done? && l in st.mask && l !in r.st.returned {
      NothingSame(l);
      SameIsEqual(own.u, r.st.uni);
      SameIsEqual(own.m, r.st.vars[l]);
    }
    hide SameOutside, SameValue;
  }

  // ---------- switch ----------

  /** The label that a value goes to is the one that it matches. */
  lemma TargetMatches(n: Node, i: nat, v: int)
    requires 1 <= i < |n.kids| && DistinctLabels(n)
    ensures Matches(n, n.kids[i], v) <==> i == LabelOf(n, v)
  {
    var found := Find(n, Some(v), 1);
    if found < |n.kids| {
      assert HasCase(n, v);
    } else {
      assert !HasCase(n, v);
    }
  }

  /** The labels of a switch from some label on; `on`: has the lane been switched into
      them, or will it be? */
  ghost predicate LabelsTrack(
    on: bool, l: Lane, st: St, r: Result, own: LaneResult, exact: bool, names: set<string>)
  {
    !r.Jumped? && (r.Done? ==> if on then Through(l, r.st, PastBreak(own), exact, names) else Rests(l, st, r.st, names))
  }

  lemma AnyLabels(l: Lane, st: St, r: Result, own: LaneResult, any: LaneResult, exact: bool, names: set<string>)
    requires LabelsTrack(false, l, st, r, own, exact, names)
    ensures LabelsTrack(false, l, st, r, any, exact, names)
  {
  }

  lemma LabelsOver(on: bool, l: Lane, st: St, exact: bool, names: set<string>)
    requires l < |st.vars| && (on ==> l !in st.returned)
    ensures LabelsTrack(on, l, st, Done(st, []), LaneDone(st.uni, st.vars[l], []), exact, names)
  {
  }

  /** A label that the lane does not take part in. */
  lemma LabelWaits(
    l: Lane, st: St, st1: St, r: Result, own: LaneResult, rest: Result,
    exact: bool, names: set<string>, all: set<string>)
    requires l < |st.vars| && l !in st1.mask && st1 == st.(mask := st1.mask) && names <= all
    requires Tracks(l, st1, r, own, names) && !(r.Jumped? && !r.toBreak)
    requires r.Done? ==> LabelsTrack(false, l, r.st, rest, own, exact, all)
    ensures
      LabelsTrack(false, l, st, if r.Jumped? then Done(r.st, []) else if !r.Done? then r else rest, own, exact, all)
  {
    if r.Done? && rest.Done? {
      RestsOn(l, st1, r.st, rest.st, all);
    }
    hide SameOutside;
  }

  /** A label that the lane goes through, with what it does after it. */
  lemma LabelFollows(
    l: Lane, st: St, r: Result, own: LaneResult, rest: Result, own1: LaneResult,
    exact: bool, names: set<string>, all: set<string>)
    requires l in st.mask && l < |st.vars| && names <= all && !(r.Jumped? && !r.toBreak)
    requires Tracks(l, st, r, own, names)
    requires r.Done? || r.Jumped? ==> l !in r.st.continued && (exact ==> l !in r.st.broke)
    requires r.Done? ==> LabelsTrack(l in r.st.mask, l, r.st, rest, own1, exact, all)
    ensures
      LabelsTrack(true, l, st, if r.Jumped? then Done(r.st, []) else if !r.Done? then r else rest,
                  if own.LaneDone? then own1 else own, exact, all)
  {
    if r.Done? || r.Jumped? {
      if l !in r.st.mask {
        assert Through(l, r.st, PastBreak(own), exact, all);
        if r.Done? && rest.Done? {
          ThroughOn(l, r.st, rest.st, PastBreak(own), exact, all);
        }
      } else if r.Jumped? {
        ThroughNow(l, r.st, own.u, own.m, exact, all);
      }
    }
    hide SameOutside, SameValue;
  }

  /** Both are what they were before a scope but for what happened in it. */
  lemma AfterEqual(before: Memory, a: Memory, b: Memory, names: set<string>, locals: set<string>)
    requires SameOutside(a, b, names)
    ensures SameOutside(After(before, a, locals), After(before, b, locals), names - locals)
    ensures names <= locals ==> After(before, a, locals) == After(before, b, locals)
  {
    AfterDrops(before, a, b, names, locals);
    if names <= locals {
      assert names - locals == {};
      SameIsEqual(After(before, a, locals), After(before, b, locals));
    }
  }

  /** The end of a switch that was entered in st and had its value in st1. */
  lemma SwitchEnds(
    l: Lane, st: St, st1: St, st2: St, r: Result, own: LaneResult, exact: bool,
    names: set<string>, first: set<string>, locals: set<string>)
    requires LaneOK(l, st1) && |st.vars| == |st1.vars| && l < |st.vars|
    requires st2.uni == st1.uni && st2.vars == st1.vars && st2.returned == st1.returned
    requires LabelsTrack(l in st.mask, l, st2, r, own, exact, names)
    requires r.Done? ==> |r.st.vars| == |st.vars| && r.st.continued == st1.continued
    requires (!exact ==> names <= locals)
    requires if l in st.mask then l in st1.mask else Waits(l, st, st1, first)
    ensures
      Tracks(l, st, Leave(st, FinishSwitch(st1, r), locals),
             LeaveLane(st.uni, st.vars[l], PastBreak(own), locals), first + names - locals)
  {
    if r.Done? {
      OutsideIsAfter(st.uni, r.st.uni, locals);
      OutsideIsAfter(st.vars[l], r.st.vars[l], locals);
      hide Outside, After;
      if l !in st.mask {
        RestsMore(l, st, st1, st2, r.st, first, names, first + names);
        AfterSelf(st.uni, locals);
        AfterSelf(st.vars[l], locals);
        AfterEqual(st.uni, st.uni, r.st.uni, first + names, locals);
        AfterEqual(st.vars[l], st.vars[l], r.st.vars[l], first + names, locals);
      } else {
        NothingSame(l);
        LaneLeaves(l, st, r.st, PastBreak(own), exact, names, first + names, locals);
      }
      hide SameOutside, SameValue;
    }
  }

  /** A lane that is through, at the end of the scope. */
  lemma LaneLeaves(
    l: Lane, st: St, st1: St, own: LaneResult, exact: bool, names: set<string>, all: set<string>, locals: set<string>)
    requires l < |st.vars| && Through(l, st1, own, exact, names) && (!exact ==> names <= locals) && names <= all
    ensures l !in st1.returned ==>
      && After(st.uni, own.u, locals) == After(st.uni, st1.uni, locals)
      && After(st.vars[l], own.m, locals) == After(st.vars[l], st1.vars[l], locals)
    ensures SameOutside(After(st.uni, own.u, locals), After(st.uni, st1.uni, locals), all - locals)
    ensures SameOutside(After(st.vars[l], own.m, locals), After(st.vars[l], st1.vars[l], locals), all - locals)
  {
    hide After;
    var changed := if exact && l !in st1.returned then {} else names;
    AfterEqual(st.uni, own.u, st1.uni, changed, locals);
    AfterEqual(st.vars[l], own.m, st1.vars[l], changed, locals);
  }

  lemma RestsMore(
    l: Lane, a: St, b: St, b1: St, c: St, names: set<string>, more: set<string>, all: set<string>)
    requires Waits(l, a, b, names) && b1.uni == b.uni && b1.vars == b.vars && b1.returned == b.returned
    requires Rests(l, b1, c, more) && names <= all && more <= all
    ensures Rests(l, a, c, all)
  {
  }
}
