/** The masked run of a whole tree follows every lane: what a lane has done when the gang
    is done is what it does by itself in plain C. */
module LanesAgree {
  import opened MaskContext
  import opened AllOffSafety
  import opened AllOffRun
  import opened AllOffSoundness
  import opened Predication
  import opened LaneMeaning
  import opened LaneRoles
  import opened LaneStores
  import opened LaneValues
  import opened LaneSteps
  import opened LaneLoops

  ghost predicate LaneTracked(n: Node, st: St, env: Env, w: Place, k: nat, l: Lane)
    requires l < |st.vars|
  {
    Tracks(l, st, Run(n, st, env, w, k), LaneRun(n, l, st.uni, st.vars[l], w.canContinue, k), Changes(n, w.depth))
  }

  lemma {:induction false} RunTracks(n: Node, st: St, env: Env, w: Place, k: nat, g: nat, l: Lane)
    requires LaneCode(n, w.depth, g) && |st.vars| == g && LaneOK(l, st)
    ensures LaneTracked(n, st, env, w, k, l)
    decreases n, 2, 0
  {
    ShapeOf(n, w.depth, g);
    hide LaneCode, Shaped, LaneTracked, LaneOK;
    if n.kind.Logical? {
      LogicalTracks(n, st, env, w, k, g, l);
    } else if Strict(n.kind) {
      StrictTracks(n, st, env, w, k, g, l);
    } else if n.kind.If? {
      IfTracks(n, st, env, w, k, g, l);
    } else if n.kind.Select? {
      SelectTracks(n, st, env, w, k, g, l);
    } else if n.kind.For? {
      ForTracks(n, st, env, w, k, g, l);
    } else if n.kind.Do? {
      DoTracks(n, st, env, w, k, g, l);
    } else if n.kind.Switch? {
      SwitchTracks(n, st, env, w, k, g, l);
    } else {
      NotLaneCode(n, w.depth, g);
    }
  }

  // ---------- children in order ----------

  ghost predicate KidsTrack(l: Lane, st: St, rs: Results, own: LaneResults, names: set<string>)
  {
    match rs
    case AllDone(st1, values) =>
      if l !in st.mask then Waits(l, st, st1, names)
      else if l in st1.mask then own.LaneAll? && Agrees(l, st1, own.u, own.m) && SameNumbers(values, own.values, l)
      else own.LaneStopped? && Gone(l, st1, own.r, names)
    case Stopped(r) =>
      && !r.Done?
      && (r.Jumped? ==>
            if l in st.mask then own.LaneStopped? && Tracks(l, st, r, own.r, names) else Waits(l, st, r.st, names))
  }

  lemma NextKidTracks(
    l: Lane, st: St, r: Result, own: LaneResult, rs: Results, rest: LaneResults,
    names: set<string>, more: set<string>, all: set<string>)
    requires r.Done? && Tracks(l, st, r, own, names) && KidsTrack(l, r.st, rs, rest, more)
    requires names <= all && more <= all
    ensures KidsTrack(
              l, st, if rs.Stopped? then rs else AllDone(rs.st, [r.value] + rs.values),
              if !own.LaneDone? then LaneStopped(own)
              else if rest.LaneStopped? then rest else LaneAll(rest.u, rest.m, [own.value] + rest.values),
              all)
  {
    hide SameOutside, SameValue;
    if rs.AllDone? || rs.r.Jumped? {
      var st2 := if rs.AllDone? then rs.st else rs.r.st;
      if l !in st.mask {
        WaitsOn(l, st, r.st, st2, names, more, all);
      } else if l !in r.st.mask {
        StaysGone(l, r.st, st2, own, names, more, all);
      } else if l !in st2.mask {
        GoneMore(l, st2, rest.r, more, all);
      }
    }
  }

  lemma GoneMore(l: Lane, st: St, own: LaneResult, names: set<string>, all: set<string>)
    requires Gone(l, st, own, names) && names <= all
    ensures Gone(l, st, own, all)
  {
  }

  lemma KidStops(l: Lane, st: St, r: Result, own: LaneResult, names: set<string>, all: set<string>)
    requires !r.Done? && Tracks(l, st, r, own, names) && names <= all
    ensures KidsTrack(l, st, Stopped(r), if own.LaneDone? then LaneAll(own.u, own.m, []) else LaneStopped(own), all)
    ensures l in st.mask && r.Jumped? ==> own.Left?
  {
    TracksMore(l, st, r, own, names, all);
    hide SameOutside, SameValue;
  }

  lemma StrictChanges(n: Node, i: nat, d: nat)
    requires Strict(n.kind) && i < |n.kids|
    ensures KidDepth(n, i, d) == d && KidChanges(n, i, d) == Changes(n.kids[i], d)
    ensures KidsChange(n, i, d) == KidChanges(n, i, d) + KidsChange(n, i + 1, d)
  {
  }

  lemma StrictAll(n: Node, d: nat)
    requires Strict(n.kind)
    ensures Changes(n, d) == Own(n, d) + KidsChange(n, 0, d)
  {
    hide Own;
  }

  lemma NoKids(l: Lane, st: St, names: set<string>)
    requires LaneOK(l, st)
    ensures KidsTrack(l, st, AllDone(st, []), LaneAll(st.uni, st.vars[l], []), names)
  {
  }

  lemma {:induction false} KidsAgree(
    n: Node, from: nat, st: St, env: Env, w: Place, k: nat, g: nat, l: Lane)
    requires LaneCode(n, w.depth, g) && Strict(n.kind) && |st.vars| == g && LaneOK(l, st)
    ensures
      KidsTrack(l, st, RunKids(n, from, st, env, w, k), LaneKids(n, from, l, st.uni, st.vars[l], w.canContinue, k),
                KidsChange(n, from, w.depth))
    decreases n, 1, |n.kids| - from
  {
    hide LaneCode, Run, LaneRun, KidsTrack, Tracks, Changes, KidsChange, KidChanges;
    if from >= |n.kids| {
      NoKids(l, st, KidsChange(n, from, w.depth));
    } else {
      LaneKidsRun(n, from, l, st.uni, st.vars[l], w.canContinue, k);
      StrictChanges(n, from, w.depth);
      KidIsLaneCode(n, from, w.depth, g);
      RunTracks(n.kids[from], st, env, w, k, g, l);
      RunRoles(n.kids[from], st, env, w, k, g);
      var r := Run(n.kids[from], st, env, w, k);
      var own := LaneRun(n.kids[from], l, st.uni, st.vars[l], w.canContinue, k);
      var names, more, all :=
        KidChanges(n, from, w.depth), KidsChange(n, from + 1, w.depth), KidsChange(n, from, w.depth);
      if r.Done? {
        StillOK(l, st, r, own, names);
        KidsAgree(n, from + 1, r.st, env, w, k, g, l);
        NextKidTracks(l, st, r, own, RunKids(n, from + 1, r.st, env, w, k),
                      LaneKids(n, from + 1, l, r.st.uni, r.st.vars[l], w.canContinue, k), names, more, all);
        LaneGoesOn(l, st, r, own, names);
        if l !in st.mask {
          AnyKids(l, st, RunKids(n, from, st, env, w, k), all);
        }
      } else {
        KidStops(l, st, r, own, names, all);
        AnyKids(l, st, Stopped(r), all);
      }
    }
  }

  lemma LaneKidsRun(n: Node, from: nat, l: Lane, u: Memory, m: Memory, inLoop: bool, k: nat)
    requires from < |n.kids|
    ensures
      var own := LaneRun(n.kids[from], l, u, m, inLoop, k);
      LaneKids(n, from, l, u, m, inLoop, k) ==
        if !own.LaneDone? then LaneStopped(own)
        else
          var rest := LaneKids(n, from + 1, l, own.u, own.m, inLoop, k);
          if rest.LaneStopped? then rest else LaneAll(rest.u, rest.m, [own.value] + rest.values)
  {
  }

  lemma StillOK(l: Lane, st: St, r: Result, own: LaneResult, names: set<string>)
    requires Tracks(l, st, r, own, names) && (r.Done? || r.Jumped?)
    ensures LaneOK(l, r.st)
  {
  }

  /** A lane that is still on has the gang's uniform variables and its own. */
  lemma LaneGoesOn(l: Lane, st: St, r: Result, own: LaneResult, names: set<string>)
    requires Tracks(l, st, r, own, names) && r.Done? && l < |st.vars|
    ensures l in st.mask && l in r.st.mask ==>
      own.LaneDone? && l < |r.st.vars| && own.u == r.st.uni && own.m == r.st.vars[l]
    ensures l in st.mask && l !in r.st.mask ==> own.Left?
  {
  }

  lemma AnyKids(l: Lane, st: St, rs: Results, names: set<string>)
    requires exists own :: KidsTrack(l, st, rs, own, names)
    ensures l !in st.mask || (rs.Stopped? && !rs.r.Jumped?) ==> forall any :: KidsTrack(l, st, rs, any, names)
  {
  }

  // ---------- strict nodes ----------

  lemma {:induction false} StrictTracks(n: Node, st: St, env: Env, w: Place, k: nat, g: nat, l: Lane)
    requires LaneCode(n, w.depth, g) && Strict(n.kind) && !n.kind.Logical? && |st.vars| == g && LaneOK(l, st)
    ensures LaneTracked(n, st, env, w, k, l)
    decreases n, 1, |n.kids| + 1
  {
    KidsAgree(n, 0, st, env, w, k, g, l);
    KidsEven(n, 0, st, env, w, k, g);
    ShapeOf(n, w.depth, g);
    KidConsts(n, w.depth, g);
    StrictAll(n, w.depth);
    hide LaneCode, RunKids, LaneKids, Apply, LaneApply, Shaped, KidsTrack, Changes, AllEven;
    var rs := RunKids(n, 0, st, env, w, k);
    var own := LaneKids(n, 0, l, st.uni, st.vars[l], w.canContinue, k);
    var names := KidsChange(n, 0, w.depth);
    if rs.Stopped? {
      StoppedTracks(l, st, rs, own, names, Changes(n, w.depth));
      hide Tracks;
    } else {
      NodeAfterKids(n, st, rs, own, env, w, g, l, names);
    }
  }

  lemma KidConsts(n: Node, d: nat, g: nat)
    requires LaneCode(n, d, g)
    ensures ConstsFit(n, g)
  {
    forall i | 0 <= i < |n.kids| && n.kids[i].kind.Const?
      ensures |n.kids[i].kind.vals| == 1 || |n.kids[i].kind.vals| == g
    {
      KidIsLaneCode(n, i, d, g);
      ShapeOf(n.kids[i], KidDepth(n, i, d), g);
    }
  }

  lemma StoppedTracks(l: Lane, st: St, rs: Results, own: LaneResults, names: set<string>, all: set<string>)
    requires KidsTrack(l, st, rs, own, names) && rs.Stopped? && names <= all
    ensures Tracks(l, st, rs.r, if own.LaneStopped? then own.r else LaneFault, all)
    ensures own.LaneStopped? || forall any :: Tracks(l, st, rs.r, any, all)
  {
    hide SameValue;
  }

  lemma NodeAfterKids(
    n: Node, st: St, rs: Results, own: LaneResults, env: Env, w: Place, g: nat, l: Lane, names: set<string>)
    requires KidsTrack(l, st, rs, own, names) && rs.AllDone? && |rs.st.vars| == g && l < |st.vars|
    requires Shaped(n, w.depth, g) && Strict(n.kind) && !n.kind.Logical?
    requires ConstsFit(n, g) && AllEven(n, 0, rs.values, g)
    ensures
      Tracks(l, st, Apply(n, rs.st, rs.values, env, w),
             if own.LaneStopped? then own.r else LaneApply(n, l, own.u, own.m, own.values, w.canContinue),
             Own(n, w.depth) + names)
  {
    hide Shaped, Apply, LaneApply, AllEven, SameNumbers, SameValue, SameOutside, Own, ConstsFit;
    var r, all := Apply(n, rs.st, rs.values, env, w), Own(n, w.depth) + names;
    var own1 := if own.LaneStopped? then own.r else LaneApply(n, l, own.u, own.m, own.values, w.canContinue);
    if l in st.mask && l in rs.st.mask {
      NodeTracks(n, rs.st, rs.values, own.values, env, w, g, l);
      TracksThen(l, st, rs.st, r, own1, {}, all);
    } else {
      NodeWaits(n, rs.st, rs.values, env, w, g, l);
      hide Tracks;
      assert Tracks(l, rs.st, r, LaneFault, Own(n, w.depth)) by {
        TracksWaiting(l, rs.st, r, LaneFault, Own(n, w.depth));
      }
      TracksOff(l, st, rs.st, r, own1, LaneFault, names, Own(n, w.depth), all);
    }
  }

  lemma TracksWaiting(l: Lane, st: St, r: Result, own: LaneResult, names: set<string>)
    requires l !in st.mask && (r.Done? || r.Jumped? ==> Waits(l, st, r.st, names))
    ensures Tracks(l, st, r, own, names)
  {
  }

  // ---------- scopes and parts ----------

  lemma {:induction false} ScopeTracks(part: Node, st: St, env: Env, w: Place, k: nat, g: nat, l: Lane)
    requires LaneCode(part, w.depth, g) && |st.vars| == g && LaneOK(l, st)
    ensures
      Tracks(l, st, RunScope(part, st, env, w, k), LaneScope(part, l, st.uni, st.vars[l], w.canContinue, k),
             Changes(part, w.depth) - Declared(part))
    decreases part, 3, 0
  {
    RunTracks(part, st, env, w, k, g, l);
    RunRoles(part, st, env, w, k, g);
    hide LaneCode, Run, LaneRun, Tracks, Changes, Declared, Leave, LeaveLane;
    LeaveTracks(l, st, Run(part, st, env, w, k), LaneRun(part, l, st.uni, st.vars[l], w.canContinue, k),
                Changes(part, w.depth), Declared(part));
  }

  lemma PartFollows(l: Lane, st: St, r: Result, own: LaneResult, names: set<string>)
    requires LaneOK(l, st) && Tracks(l, st, r, own, names) && Calm(st, r) && !own.Left?
    ensures PartTracks(l, st, r, own, names)
  {
    hide SameOutside, SameValue;
  }

  lemma {:induction false} PartAgrees(n: Node, i: nat, st: St, env: Env, d: nat, k: nat, g: nat, l: Lane)
    requires LaneCode(n, d, g) && i < |n.kids| && NoJump(n.kids[i]) && |st.vars| == g && LaneOK(l, st)
    requires KidLocals(n, i) == {}
    ensures
      PartTracks(l, st, Run(n.kids[i], st, env, Plain(KidDepth(n, i, d)), k),
                 LaneRun(n.kids[i], l, st.uni, st.vars[l], false, k), KidChanges(n, i, d))
    decreases n, 0, 0
  {
    hide LaneCode, Run, LaneRun, NoJump, Changes, Tracks, PartTracks, KidDepth, KidLocals, Calm;
    var w := Plain(KidDepth(n, i, d));
    KidIsLaneCode(n, i, d, g);
    PartRoles(n, i, st, env, d, k, g);
    RunTracks(n.kids[i], st, env, w, k, g, l);
    NeverLeaves(n.kids[i], l, st.uni, st.vars[l], false, k);
    PartFollows(l, st, Run(n.kids[i], st, env, w, k), LaneRun(n.kids[i], l, st.uni, st.vars[l], false, k),
                Changes(n.kids[i], w.depth));
    assert KidChanges(n, i, d) == Changes(n.kids[i], w.depth);
  }

  lemma KidIn(n: Node, i: nat, d: nat)
    requires i < |n.kids| && Locals(n) == {}
    ensures KidChanges(n, i, d) <= Changes(n, d)
  {
    KidChangesIn(n, 0, i, d);
    hide Own;
  }

  /** What comes after a part, when its lane still is on, or waits. */
  lemma AfterPart(
    l: Lane, st: St, t: Result, own: LaneResult, r: Result, own1: LaneResult,
    names: set<string>, more: set<string>, all: set<string>)
    requires PartTracks(l, st, t, own, names) && t.Done? && l < |st.vars|
    requires Tracks(l, t.st, r, own1, more) && names <= all && more <= all
    ensures Tracks(l, st, r, own1, all)
  {
    hide SameOutside, SameValue;
    if l in st.mask {
      TracksThen(l, st, t.st, r, own1, more, all);
    } else {
      TracksOff(l, st, t.st, r, own1, own1, names, more, all);
    }
  }

  lemma PartStops(l: Lane, st: St, t: Result, own: LaneResult, any: LaneResult, names: set<string>, all: set<string>)
    requires PartTracks(l, st, t, own, names) && !t.Done?
    ensures Tracks(l, st, t, any, all)
  {
  }

  /** A uniform value is the lane's own. */
  lemma {:induction false} PartIsEven(n: Node, i: nat, st: St, env: Env, d: nat, k: nat, g: nat, l: Lane)
    requires LaneCode(n, d, g) && i < |n.kids| && |st.vars| == g && l < g && Uniform(n.kids[i])
    ensures
      var t := Run(n.kids[i], st, env, Plain(KidDepth(n, i, d)), k);
      t.Done? ==> InLane(Part(t.value, 0), 0) == InLane(Part(t.value, 0), l)
  {
    var w := Plain(KidDepth(n, i, d));
    KidIsLaneCode(n, i, d, g);
    RunEven(n.kids[i], st, env, w, k, g);
    hide LaneCode, Run, Uniform;
    var t := Run(n.kids[i], st, env, w, k);
    if t.Done? {
      assert EvenPart(n.kids[i], 0) && EvenAt(t.value, 0, g);
    }
  }

  // ---------- if ----------

  lemma IfShape(n: Node, d: nat, g: nat)
    requires Shaped(n, d, g) && n.kind.If?
    ensures |n.kids| == 3 && NoJump(n.kids[0]) && (!Uniform(n.kids[0]) ==> Changes(n, d) == {})
    ensures Locals(n) == {} && KidLocals(n, 0) == {} && KidDepth(n, 0, d) == d
    ensures forall i: nat :: 1 <= i < 3 ==> KidDepth(n, i, d) == if Uniform(n.kids[0]) then d else d + 1
    ensures forall i: nat :: 1 <= i < 3 ==>
      KidChanges(n, i, d) == Changes(n.kids[i], KidDepth(n, i, d)) - Declared(n.kids[i])
  {
    hide NoJump, Changes;
  }

  lemma AnyOwn(l: Lane, st: St, r: Result, own: LaneResult, any: LaneResult, names: set<string>)
    requires Tracks(l, st, r, own, names) && l !in st.mask
    ensures Tracks(l, st, r, any, names)
  {
  }

  /** The side that the lane takes. */
  function Side(value: Value, l: Lane): (i: nat)
    ensures 1 <= i < 3
  {
    if InLane(Part(value, 0), l) != 0 then 1 else 2
  }

  lemma IfRuns(n: Node, st: St, env: Env, w: Place, k: nat)
    requires n.kind.If? && |n.kids| == 3
    ensures
      var t := Run(n.kids[0], st, env, Plain(w.depth), k);
      Run(n, st, env, w, k) ==
        if !t.Done? then t
        else if Uniform(n.kids[0]) then RunScope(n.kids[Side(t.value, 0)], t.st, env, w, k)
        else RunSides(n, t.st, TrueLanes(t.st, Part(t.value, 0)), env, w, k)
  {
    hide RunScope, RunSides, Uniform, TrueLanes;
    assert Run(n, st, env, w, k) == RunIf(n, st, env, w, k);
  }

  lemma LaneIfRuns(n: Node, l: Lane, u: Memory, m: Memory, t: Result, inLoop: bool, k: nat)
    requires n.kind.If? && |n.kids| == 3 && t.Done?
    ensures
      var own := LaneRun(n.kids[0], l, u, m, false, k);
      own.LaneDone? && SameValue(t.value, own.value, l) ==>
        LaneRun(n, l, u, m, inLoop, k) == LaneScope(n.kids[Side(t.value, l)], l, own.u, own.m, inLoop, k)
  {
    hide LaneScope;
  }

  lemma {:induction false} IfTracks(n: Node, st: St, env: Env, w: Place, k: nat, g: nat, l: Lane)
    requires LaneCode(n, w.depth, g) && n.kind.If? && |st.vars| == g && LaneOK(l, st)
    ensures LaneTracked(n, st, env, w, k, l)
    decreases n, 1, 1
  {
    ShapeOf(n, w.depth, g);
    IfShape(n, w.depth, g);
    PartAgrees(n, 0, st, env, w.depth, k, g, l);
    KidIn(n, 0, w.depth);
    IfRuns(n, st, env, w, k);
    hide LaneCode, Shaped, Run, LaneRun, NoJump, Changes, KidDepth, KidChanges, Locals, KidLocals, Side, Tracks;
    hide LaneScope, RunScope, RunSides, TrueLanes;
    var t := Run(n.kids[0], st, env, Plain(w.depth), k);
    var own := LaneRun(n.kids[0], l, st.uni, st.vars[l], false, k);
    var names, all := KidChanges(n, 0, w.depth), Changes(n, w.depth);
    if !t.Done? {
      PartStops(l, st, t, own, LaneRun(n, l, st.uni, st.vars[l], w.canContinue, k), names, all);
    } else {
      LaneIfRuns(n, l, st.uni, st.vars[l], t, w.canContinue, k);
      SideTracks(n, st, t, env, w, k, g, l);
      var r := Run(n, st, env, w, k);
      var own1 := LaneScope(n.kids[Side(t.value, l)], l, t.st.uni, t.st.vars[l], w.canContinue, k);
      AfterPart(l, st, t, own, r, own1, names, all, all);
      if l !in st.mask {
        AnyOwn(l, st, r, own1, LaneRun(n, l, st.uni, st.vars[l], w.canContinue, k), all);
      }
    }
  }

  /** The sides of an if after its test t. */
  lemma {:induction false} SideTracks(n: Node, st: St, t: Result, env: Env, w: Place, k: nat, g: nat, l: Lane)
    requires LaneCode(n, w.depth, g) && n.kind.If? && |n.kids| == 3 && |st.vars| == g && l < g
    requires t.Done? && t == Run(n.kids[0], st, env, Plain(w.depth), k) && LaneOK(l, t.st) && |t.st.vars| == g
    ensures
      Tracks(l, t.st, Run(n, st, env, w, k),
             LaneScope(n.kids[Side(t.value, l)], l, t.st.uni, t.st.vars[l], w.canContinue, k), Changes(n, w.depth))
    decreases n, 1, 0
  {
    ShapeOf(n, w.depth, g);
    IfShape(n, w.depth, g);
    IfRuns(n, st, env, w, k);
    var i := Side(t.value, l);
    KidIn(n, i, w.depth);
    KidIsLaneCode(n, i, w.depth, g);
    hide LaneCode, Shaped, Run, NoJump, Changes, KidDepth, KidChanges, Locals, KidLocals, Tracks, LaneScope;
    hide RunScope, RunSides;
    if Uniform(n.kids[0]) {
      PartIsEven(n, 0, st, env, w.depth, k, g, l);
      ScopeTracks(n.kids[i], t.st, env, w, k, g, l);
      TracksMore(l, t.st, RunScope(n.kids[i], t.st, env, w, k),
                 LaneScope(n.kids[i], l, t.st.uni, t.st.vars[l], w.canContinue, k), KidChanges(n, i, w.depth),
                 Changes(n, w.depth));
    } else {
      SidesTrack(n, t.st, t.value, env, w, k, g, l);
    }
  }

  lemma {:induction false} OneSideTracks(
    n: Node, i: nat, st: St, env: Env, w1: Place, k: nat, g: nat, l: Lane)
    requires w1.depth > 0 && LaneCode(n, w1.depth - 1, g) && n.kind.If? && |n.kids| == 3 && 1 <= i < 3
    requires !Uniform(n.kids[0]) && |st.vars| == g && LaneOK(l, st) && !w1.direct
    ensures
      var r := RunSide(n.kids[i], st, n.kind.branch, env, w1, k);
      && !r.Jumped? && (r.Done? ==> |r.st.vars| == g)
      && Tracks(l, st, r, LaneScope(n.kids[i], l, st.uni, st.vars[l], w1.canContinue, k), {})
    decreases n, 0, 0
  {
    ShapeOf(n, w1.depth - 1, g);
    IfShape(n, w1.depth - 1, g);
    KidIn(n, i, w1.depth - 1);
    hide LaneCode, Shaped, NoJump, Changes, KidDepth, KidChanges, Locals, KidLocals, Uniform;
    hide LaneScope, RunScope, VaryingJump, DirectBreak, Tracks;
    assert Changes(n.kids[i], w1.depth) - Declared(n.kids[i]) == {};
    KidIsLaneCode(n, i, w1.depth - 1, g);
    ScopeTracks(n.kids[i], st, env, w1, k, g, l);
    SideRoles(n, i, st, env, w1, k, g);
    if n.kind.branch && st.mask == {} {
      WaitsNot(l, st, {});
      TracksWaiting(l, st, Done(st, []), LaneScope(n.kids[i], l, st.uni, st.vars[l], w1.canContinue, k), {});
    }
  }

  lemma NoResult(l: Lane, st: St, r: Result, own: LaneResult, names: set<string>)
    requires !r.Done? && !r.Jumped?
    ensures Tracks(l, st, r, own, names)
  {
  }

  lemma SidesRun(n: Node, st: St, test: Mask, env: Env, w: Place, k: nat)
    requires n.kind.If? && |n.kids| == 3
    ensures
      var w1 := Place(false, w.depth + 1, w.canContinue);
      var r := RunSide(n.kids[1], st.(mask := st.mask * test), n.kind.branch, env, w1, k);
      RunSides(n, st, test, env, w, k) ==
        if !r.Done? then r
        else BothSides(st, RunSide(n.kids[2], r.st.(mask := st.mask - test), n.kind.branch, env, w1, k))
  {
    hide RunSide;
  }

  function BothSides(st: St, r: Result): Result
  {
    if r.Done? then Done(r.st.(mask := st.mask - r.st.returned - r.st.broke - r.st.continued), []) else r
  }

  lemma {:induction false} SidesTrack(n: Node, st: St, value: Value, env: Env, w: Place, k: nat, g: nat, l: Lane)
    requires LaneCode(n, w.depth, g) && n.kind.If? && |n.kids| == 3 && !Uniform(n.kids[0])
    requires |st.vars| == g && LaneOK(l, st)
    ensures
      Tracks(l, st, RunSides(n, st, TrueLanes(st, Part(value, 0)), env, w, k),
             LaneScope(n.kids[Side(value, l)], l, st.uni, st.vars[l], w.canContinue, k), {})
    decreases n, 0, 1
  {
    var test := TrueLanes(st, Part(value, 0));
    var w1 := Place(false, w.depth + 1, w.canContinue);
    assert Side(value, l) == if l in test then 1 else 2;
    SidesRun(n, st, test, env, w, k);
    hide LaneCode, RunSide, RunSides, LaneScope, Side, TrueLanes, Tracks, Uniform, BothSides, LaneOK;
    var st1 := st.(mask := st.mask * test);
    MaskedOK(l, st, st1);
    OneSideTracks(n, 1, st1, env, w1, k, g, l);
    var r := RunSide(n.kids[1], st1, n.kind.branch, env, w1, k);
    var own := LaneScope(n.kids[1], l, st.uni, st.vars[l], w.canContinue, k);
    if r.Done? {
      var st2 := r.st.(mask := st.mask - test);
      OtherSideOK(l, st, test, r, own);
      OneSideTracks(n, 2, st2, env, w1, k, g, l);
      ScopesHaveNoValue(n.kids[1], l, st.uni, st.vars[l], w.canContinue, k);
      ScopesHaveNoValue(n.kids[2], l, st2.uni, st2.vars[l], w.canContinue, k);
      SidesJoin(l, st, test, r, own, RunSide(n.kids[2], st2, n.kind.branch, env, w1, k),
                LaneScope(n.kids[2], l, st2.uni, st2.vars[l], w.canContinue, k));
    } else {
      NoResult(l, st, r, LaneScope(n.kids[Side(value, l)], l, st.uni, st.vars[l], w.canContinue, k), {});
    }
  }

  lemma MaskedOK(l: Lane, st: St, st1: St)
    requires LaneOK(l, st) && st1 == st.(mask := st1.mask) && st1.mask <= st.mask
    ensures LaneOK(l, st1)
  {
  }

  lemma ScopesHaveNoValue(part: Node, l: Lane, u: Memory, m: Memory, inLoop: bool, k: nat)
    ensures LaneScope(part, l, u, m, inLoop, k).LaneDone? ==> LaneScope(part, l, u, m, inLoop, k).value == []
  {
    hide LaneRun, After;
  }

  lemma OtherSideOK(l: Lane, st: St, test: Mask, r: Result, own: LaneResult)
    requires LaneOK(l, st) && r.Done? && Tracks(l, st.(mask := st.mask * test), r, own, {})
    ensures LaneOK(l, r.st.(mask := st.mask - test)) && l < |r.st.vars|
    ensures l !in test ==> r.st.uni == st.uni && r.st.vars[l] == st.vars[l]
  {
    var st1 := st.(mask := st.mask * test);
    if l !in test {
      WaitsSame(l, st1, r.st, {});
    }
  }

  /** The lane ran one of the two sides, and comes back on unless it left in it. */
  lemma SidesJoin(l: Lane, st: St, test: Mask, r: Result, own: LaneResult, r2: Result, own2: LaneResult)
    requires LaneOK(l, st) && r.Done? && Tracks(l, st.(mask := st.mask * test), r, own, {})
    requires !r2.Jumped? && Tracks(l, r.st.(mask := st.mask - test), r2, own2, {})
    requires |r.st.vars| == |st.vars|
    requires (own.LaneDone? ==> own.value == []) && (own2.LaneDone? ==> own2.value == [])
    ensures Tracks(l, st, BothSides(st, r2), if l in test then own else own2, {})
  {
    hide SameOutside, SameValue;
    NothingSame(l);
    var st1, st2 := st.(mask := st.mask * test), r.st.(mask := st.mask - test);
    if !r2.Done? {
    } else if l !in st.mask {
      WaitsOn(l, st1, r.st, r2.st, {}, {}, {});
    } else if l in test {
      if l in r.st.mask {
        WaitsSame(l, st2, r2.st, {});
      } else {
        StaysGone(l, r.st, r2.st, own, {}, {}, {});
      }
    }
  }

  // ---------- select ----------

  lemma OperandsShape(n: Node, d: nat, g: nat)
    requires Shaped(n, d, g) && (n.kind.Select? || n.kind.Logical?)
    ensures |n.kids| == if n.kind.Logical? then 2 else 3
    ensures Locals(n) == {} && forall i: nat :: i < |n.kids| ==>
      && NoJump(n.kids[i]) && KidLocals(n, i) == {} && KidDepth(n, i, d) == d
      && (i > 0 ==> KidChanges(n, i, d) == {})
    ensures n.kind.Logical? && !n.kind.shortCircuit ==> Pure(n.kids[1])
  {
    hide NoJump, Changes, Pure;
  }

  lemma SelectRuns(n: Node, st: St, env: Env, w: Place, k: nat)
    requires n.kind.Select? && |n.kids| == 3
    ensures
      var t := Run(n.kids[0], st, env, Plain(w.depth), k);
      Run(n, st, env, w, k) ==
        if !t.Done? then t
        else if Uniform(n.kids[0]) then Run(n.kids[Side(t.value, 0)], t.st, env, Plain(w.depth), k)
        else RunOperands(n, t.st, TrueLanes(t.st, Part(t.value, 0)), env, w.depth, k)
  {
    hide RunOperands, Uniform, TrueLanes;
    assert Run(n, st, env, w, k) == RunSelect(n, st, env, w, k);
  }

  lemma OperandsRun(n: Node, st: St, test: Mask, env: Env, d: nat, k: nat)
    requires n.kind.Select? && |n.kids| == 3
    ensures
      var r := RunOperand(n.kids[1], st.(mask := st.mask * test), n.kind.shortCircuit1, env, d, k);
      RunOperands(n, st, test, env, d, k) ==
        if !r.Done? then r
        else
          var st2 := r.st.(mask := st.mask - test);
          BothOperands(st, test, r, RunOperand(n.kids[2], st2, n.kind.shortCircuit2, env, d, k))
  {
    hide RunOperand, Selected;
  }

  function BothOperands(st: St, test: Mask, r: Result, r2: Result): Result
    requires r.Done?
  {
    if r2.Done? then Done(r2.st.(mask := st.mask), Selected(st, test, r.value, r2.value)) else r2
  }

  lemma LaneSelectRuns(n: Node, l: Lane, u: Memory, m: Memory, t: Result, inLoop: bool, k: nat)
    requires n.kind.Select? && |n.kids| == 3 && t.Done?
    ensures
      var own := LaneRun(n.kids[0], l, u, m, false, k);
      own.LaneDone? && SameValue(t.value, own.value, l) ==>
        LaneRun(n, l, u, m, inLoop, k) == LaneRun(n.kids[Side(t.value, l)], l, own.u, own.m, false, k)
  {
  }

  lemma {:induction false} SelectTracks(n: Node, st: St, env: Env, w: Place, k: nat, g: nat, l: Lane)
    requires LaneCode(n, w.depth, g) && n.kind.Select? && |st.vars| == g && LaneOK(l, st)
    ensures LaneTracked(n, st, env, w, k, l)
    decreases n, 1, 1
  {
    ShapeOf(n, w.depth, g);
    OperandsShape(n, w.depth, g);
    hide LaneCode, Shaped, Run, LaneRun, NoJump, Changes, KidDepth, KidChanges, Locals, KidLocals, Side, Tracks;
    hide RunOperands, TrueLanes, Pure;
    PartAgrees(n, 0, st, env, w.depth, k, g, l);
    KidIn(n, 0, w.depth);
    SelectRuns(n, st, env, w, k);
    var t := Run(n.kids[0], st, env, Plain(w.depth), k);
    var own := LaneRun(n.kids[0], l, st.uni, st.vars[l], false, k);
    var names, all := KidChanges(n, 0, w.depth), Changes(n, w.depth);
    if !t.Done? {
      PartStops(l, st, t, own, LaneRun(n, l, st.uni, st.vars[l], w.canContinue, k), names, all);
    } else {
      LaneSelectRuns(n, l, st.uni, st.vars[l], t, w.canContinue, k);
      ChosenTracks(n, st, t, env, w, k, g, l);
      var r := Run(n, st, env, w, k);
      var own1 := LaneRun(n.kids[Side(t.value, l)], l, t.st.uni, t.st.vars[l], false, k);
      AfterPart(l, st, t, own, r, own1, names, {}, all);
      if l !in st.mask {
        AnyOwn(l, st, r, own1, LaneRun(n, l, st.uni, st.vars[l], w.canContinue, k), all);
      }
    }
  }

  lemma {:induction false} ChosenTracks(n: Node, st: St, t: Result, env: Env, w: Place, k: nat, g: nat, l: Lane)
    requires LaneCode(n, w.depth, g) && n.kind.Select? && |st.vars| == g && l < g && |n.kids| == 3
    requires t.Done? && t == Run(n.kids[0], st, env, Plain(w.depth), k) && LaneOK(l, t.st) && |t.st.vars| == g
    ensures
      Tracks(l, t.st, Run(n, st, env, w, k), LaneRun(n.kids[Side(t.value, l)], l, t.st.uni, t.st.vars[l], false, k), {})
    decreases n, 1, 0
  {
    ShapeOf(n, w.depth, g);
    OperandsShape(n, w.depth, g);
    SelectRuns(n, st, env, w, k);
    var i := Side(t.value, l);
    hide LaneCode, Shaped, Run, LaneRun, NoJump, Changes, KidDepth, KidChanges, Locals, KidLocals, Pure;
    hide RunOperands, TrueLanes;
    if Uniform(n.kids[0]) {
      PartIsEven(n, 0, st, env, w.depth, k, g, l);
      PartAgrees(n, i, t.st, env, w.depth, k, g, l);
      hide Uniform, Side, Waits, SameValue;
    } else {
      hide Tracks, Uniform;
      OperandsTrack(n, t.st, t.value, env, w, k, g, l);
    }
  }

  lemma {:induction false} OperandTracks(
    n: Node, i: nat, st: St, shortCircuit: bool, env: Env, d: nat, k: nat, g: nat, l: Lane)
    requires LaneCode(n, d, g) && n.kind.Select? && |n.kids| == 3 && 1 <= i < 3 && |st.vars| == g && LaneOK(l, st)
    ensures
      PartTracks(l, st, RunOperand(n.kids[i], st, shortCircuit, env, d, k),
                 LaneRun(n.kids[i], l, st.uni, st.vars[l], false, k), {})
    decreases n, 0, 1
  {
    ShapeOf(n, d, g);
    OperandsShape(n, d, g);
    hide LaneCode, Shaped, Run, LaneRun, NoJump, Changes, KidDepth, KidChanges, Locals, KidLocals, Pure;
    PartAgrees(n, i, st, env, d, k, g, l);
    if shortCircuit && st.mask == {} {
      WaitsNot(l, st, {});
    }
  }

  lemma {:induction false} OperandsTrack(n: Node, st: St, value: Value, env: Env, w: Place, k: nat, g: nat, l: Lane)
    requires LaneCode(n, w.depth, g) && n.kind.Select? && |n.kids| == 3 && |st.vars| == g && LaneOK(l, st)
    ensures
      Tracks(l, st, RunOperands(n, st, TrueLanes(st, Part(value, 0)), env, w.depth, k),
             LaneRun(n.kids[Side(value, l)], l, st.uni, st.vars[l], false, k), {})
    decreases n, 0, 2
  {
    var test, d := TrueLanes(st, Part(value, 0)), w.depth;
    assert Side(value, l) == if l in test then 1 else 2;
    OperandsRun(n, st, test, env, d, k);
    hide LaneCode, RunOperand, RunOperands, LaneRun, Side, TrueLanes, Tracks, BothOperands, LaneOK, PartTracks;
    var st1 := st.(mask := st.mask * test);
    MaskedOK(l, st, st1);
    OperandTracks(n, 1, st1, n.kind.shortCircuit1, env, d, k, g, l);
    var r := RunOperand(n.kids[1], st1, n.kind.shortCircuit1, env, d, k);
    var own := LaneRun(n.kids[1], l, st.uni, st.vars[l], false, k);
    if r.Done? {
      var st2 := r.st.(mask := st.mask - test);
      OtherOperandOK(l, st, test, r, own);
      OperandTracks(n, 2, st2, n.kind.shortCircuit2, env, d, k, g, l);
      OperandsJoin(l, st, test, r, own, RunOperand(n.kids[2], st2, n.kind.shortCircuit2, env, d, k),
                   LaneRun(n.kids[2], l, st2.uni, st2.vars[l], false, k));
    } else {
      PartStops(l, st1, r, own, own, {}, {});
      PartResult(l, st1, r, own, {});
      NoResult(l, st, r, LaneRun(n.kids[Side(value, l)], l, st.uni, st.vars[l], false, k), {});
    }
  }

  lemma PartResult(l: Lane, st: St, r: Result, own: LaneResult, names: set<string>)
    requires PartTracks(l, st, r, own, names)
    ensures !r.Jumped?
  {
  }

  lemma OtherOperandOK(l: Lane, st: St, test: Mask, r: Result, own: LaneResult)
    requires LaneOK(l, st) && r.Done? && PartTracks(l, st.(mask := st.mask * test), r, own, {})
    ensures LaneOK(l, r.st.(mask := st.mask - test)) && |r.st.vars| == |st.vars|
    ensures l !in test ==> r.st.uni == st.uni && r.st.vars[l] == st.vars[l]
  {
    if l !in test {
      WaitsSame(l, st.(mask := st.mask * test), r.st, {});
    }
  }

  lemma OperandsJoin(l: Lane, st: St, test: Mask, r: Result, own: LaneResult, r2: Result, own2: LaneResult)
    requires LaneOK(l, st) && r.Done? && PartTracks(l, st.(mask := st.mask * test), r, own, {})
    requires PartTracks(l, r.st.(mask := st.mask - test), r2, own2, {})
    ensures Tracks(l, st, BothOperands(st, test, r, r2), if l in test then own else own2, {})
  {
    if r2.Done? {
      forall p: nat
        ensures InLane(Part(Selected(st, test, r.value, r2.value), p), l) ==
          InLane(Part(if l in test then r.value else r2.value, p), l)
      {
        SelectedAt(st, test, r.value, r2.value, p, l);
      }
      hide SameOutside, Selected;
      if l !in st.mask {
        WaitsOn(l, st.(mask := st.mask * test), r.st, r2.st, {}, {}, {});
      } else if l in test {
        WaitsSame(l, r.st.(mask := st.mask - test), r2.st, {});
      }
    }
  }

  // ---------- logical operators ----------

  predicate Decides(op: LogicalOp, a: seq<int>, l: Lane)
  {
    (InLane(a, l) != 0) == (op == Or)
  }

  function TruthOf(own: LaneResult): LaneResult
  {
    if own.LaneDone? then LaneDone(own.u, own.m, [Truth(Number(own.value, 0) != 0)]) else own
  }

  /** What lane l does after the first operand, whose value is a. */
  ghost function OwnSecond(n: Node, st: St, a: seq<int>, l: Lane, k: nat): LaneResult
    requires n.kind.Logical? && |n.kids| == 2 && l < |st.vars|
  {
    if Decides(n.kind.logical, a, l) then LaneDone(st.uni, st.vars[l], [Truth(n.kind.logical == Or)])
    else TruthOf(LaneRun(n.kids[1], l, st.uni, st.vars[l], false, k))
  }

  lemma LaneLogicalRuns(n: Node, l: Lane, u: Memory, m: Memory, t: Result, inLoop: bool, k: nat)
    requires n.kind.Logical? && |n.kids| == 2 && t.Done? && l < |t.st.vars|
    ensures
      var own := LaneRun(n.kids[0], l, u, m, false, k);
      own.LaneDone? && SameValue(t.value, own.value, l) && own.u == t.st.uni && own.m == t.st.vars[l] ==>
        LaneRun(n, l, u, m, inLoop, k) == OwnSecond(n, t.st, Part(t.value, 0), l, k)
  {
  }

  lemma LogicalTwice(n: Node, st: St, env: Env, w: Place, k: nat)
    requires n.kind.Logical? && |n.kids| == 2 && n.kind.shortCircuit
    ensures
      var t := Run(n.kids[0], st, env, Plain(w.depth), k);
      Run(n, st, env, w, k) ==
        if !t.Done? then t
        else if !Uniform(n.kids[0]) then RunSecond(n, t.st, Part(t.value, 0), env, w.depth, k)
        else if Decides(n.kind.logical, Part(t.value, 0), 0)
        then Done(t.st, [Spread([Truth(n.kind.logical == Or)], |t.st.vars|)])
        else Truths(Run(n.kids[1], t.st, env, Plain(w.depth), k))
  {
    hide RunSecond, Uniform, Truths, Spread;
    assert Run(n, st, env, w, k) == RunLogical(n, st, env, w, k);
  }

  lemma {:induction false} LogicalTracks(n: Node, st: St, env: Env, w: Place, k: nat, g: nat, l: Lane)
    requires LaneCode(n, w.depth, g) && n.kind.Logical? && |st.vars| == g && LaneOK(l, st)
    ensures LaneTracked(n, st, env, w, k, l)
    decreases n, 1, 1
  {
    ShapeOf(n, w.depth, g);
    OperandsShape(n, w.depth, g);
    hide LaneCode, Shaped, Run, LaneRun, NoJump, Changes, KidDepth, KidChanges, Locals, KidLocals, Tracks;
    hide RunSecond, Pure, OwnSecond;
    if !n.kind.shortCircuit {
      EagerTracks(n, st, env, w, k, g, l);
    } else {
      PartAgrees(n, 0, st, env, w.depth, k, g, l);
      KidIn(n, 0, w.depth);
      LogicalTwice(n, st, env, w, k);
      hide Spread, Truths, Uniform, Decides;
      var t := Run(n.kids[0], st, env, Plain(w.depth), k);
      var own := LaneRun(n.kids[0], l, st.uni, st.vars[l], false, k);
      var names, all := KidChanges(n, 0, w.depth), Changes(n, w.depth);
      if !t.Done? {
        PartStops(l, st, t, own, LaneRun(n, l, st.uni, st.vars[l], w.canContinue, k), names, all);
      } else {
        LaneLogicalRuns(n, l, st.uni, st.vars[l], t, w.canContinue, k);
        SecondTracks(n, st, t, env, w, k, g, l);
        var r := Run(n, st, env, w, k);
        var own1 := OwnSecond(n, t.st, Part(t.value, 0), l, k);
        AfterPart(l, st, t, own, r, own1, names, {}, all);
        if l !in st.mask {
          AnyOwn(l, st, r, own1, LaneRun(n, l, st.uni, st.vars[l], w.canContinue, k), all);
        }
      }
    }
  }

  lemma {:induction false} SecondTracks(n: Node, st: St, t: Result, env: Env, w: Place, k: nat, g: nat, l: Lane)
    requires LaneCode(n, w.depth, g) && n.kind.Logical? && n.kind.shortCircuit && |n.kids| == 2
    requires |st.vars| == g && l < g
    requires t.Done? && t == Run(n.kids[0], st, env, Plain(w.depth), k) && LaneOK(l, t.st) && |t.st.vars| == g
    ensures Tracks(l, t.st, Run(n, st, env, w, k), OwnSecond(n, t.st, Part(t.value, 0), l, k), {})
    decreases n, 1, 0
  {
    ShapeOf(n, w.depth, g);
    OperandsShape(n, w.depth, g);
    LogicalTwice(n, st, env, w, k);
    hide LaneCode, Shaped, Run, LaneRun, NoJump, Changes, KidDepth, KidChanges, Locals, KidLocals, Pure;
    hide RunSecond, Truths, Uniform, Tracks, PartTracks;
    var a := Part(t.value, 0);
    PartAgrees(n, 1, t.st, env, w.depth, k, g, l);
    var r := Run(n.kids[1], t.st, env, Plain(w.depth), k);
    var own := LaneRun(n.kids[1], l, t.st.uni, t.st.vars[l], false, k);
    if Uniform(n.kids[0]) {
      PartIsEven(n, 0, st, env, w.depth, k, g, l);
      if Decides(n.kind.logical, a, 0) {
        DecidedTracks(l, t.st, Truth(n.kind.logical == Or));
      } else {
        TruthTracks(l, t.st, r, own);
      }
    } else {
      MaskedOK(l, t.st, t.st.(mask := Undecided(n.kind.logical, t.st, a)));
      RunSecondTracks(n, t.st, a, env, w, k, g, l);
    }
  }

  lemma DecidedTracks(l: Lane, st: St, x: int)
    requires LaneOK(l, st)
    ensures Tracks(l, st, Done(st, [Spread([x], |st.vars|)]), LaneDone(st.uni, st.vars[l], [x]), {})
  {
    OneSame(Spread([x], |st.vars|), x, l);
  }

  lemma TruthTracks(l: Lane, st: St, r: Result, own: LaneResult)
    requires PartTracks(l, st, r, own, {}) && LaneOK(l, st)
    ensures Tracks(l, st, Truths(r), TruthOf(own), {})
  {
    if r.Done? && l in st.mask {
      OneSame(Part(Truths(r).value, 0), Truth(Number(own.value, 0) != 0), l);
    }
    hide SameOutside;
  }

  lemma {:induction false} RunSecondTracks(n: Node, st: St, a: seq<int>, env: Env, w: Place, k: nat, g: nat, l: Lane)
    requires LaneCode(n, w.depth, g) && n.kind.Logical? && |n.kids| == 2 && |st.vars| == g && LaneOK(l, st)
    ensures Tracks(l, st, RunSecond(n, st, a, env, w.depth, k), OwnSecond(n, st, a, l, k), {})
    decreases n, 0, 1
  {
    ShapeOf(n, w.depth, g);
    OperandsShape(n, w.depth, g);
    hide LaneCode, Shaped, Run, LaneRun, NoJump, Changes, KidDepth, KidChanges, Locals, KidLocals, Pure, Uniform;
    hide Truths, Tracks, PartTracks, LaneOK, Decided, Undecided, Decides;
    var op := n.kind.logical;
    var on := Undecided(op, st, a);
    WhoIsOpen(op, st, a, l);
    if on == {} {
      TruthDecided(op, l, st, a);
      if l in st.mask {
        assert OwnSecond(n, st, a, l, k) == LaneDone(st.uni, st.vars[l], [Truth(op == Or)]);
      } else {
        AnyOwn(l, st, Truths(Done(st, [a])), LaneDone(st.uni, st.vars[l], [Truth(op == Or)]),
               OwnSecond(n, st, a, l, k), {});
      }
    } else {
      var st1 := st.(mask := on);
      MaskedOK(l, st, st1);
      PartAgrees(n, 1, st1, env, w.depth, k, g, l);
      var r := Run(n.kids[1], st1, env, Plain(w.depth), k);
      var own := LaneRun(n.kids[1], l, st.uni, st.vars[l], false, k);
      PartResult(l, st1, r, own, {});
      if r.Done? {
        JoinSecond(op, l, st, a, r, own, OwnSecond(n, st, a, l, k));
      } else {
        NoResult(l, st, r, OwnSecond(n, st, a, l, k), {});
      }
    }
  }

  lemma WhoIsOpen(op: LogicalOp, st: St, a: seq<int>, l: Lane)
    requires l < |st.vars|
    ensures l in Undecided(op, st, a) <==> l in st.mask && !Decides(op, a, l)
    ensures Undecided(op, st, a) <= st.mask
  {
  }

  lemma TruthDecided(op: LogicalOp, l: Lane, st: St, a: seq<int>)
    requires LaneOK(l, st) && (l in st.mask ==> Decides(op, a, l))
    ensures Tracks(l, st, Truths(Done(st, [a])), LaneDone(st.uni, st.vars[l], [Truth(op == Or)]), {})
  {
    if l in st.mask {
      OneSame(Part(Truths(Done(st, [a])).value, 0), Truth(op == Or), l);
    }
  }

  lemma JoinSecond(op: LogicalOp, l: Lane, st: St, a: seq<int>, r: Result, own: LaneResult, all: LaneResult)
    requires LaneOK(l, st) && r.Done? && PartTracks(l, st.(mask := Undecided(op, st, a)), r, own, {})
    requires |r.st.vars| == |st.vars|
    requires all == if Decides(op, a, l) then LaneDone(st.uni, st.vars[l], [Truth(op == Or)]) else TruthOf(own)
    ensures
      Tracks(l, st, Done(r.st.(mask := st.mask), [Decided(op, st, Undecided(op, st, a), a, Part(r.value, 0))]), all, {})
  {
    var on := Undecided(op, st, a);
    WhoIsOpen(op, st, a, l);
    var c := Decided(op, st, on, a, Part(r.value, 0));
    if l in st.mask {
      if l in on {
        OneSame(c, Truth(Number(own.value, 0) != 0), l);
      } else {
        WaitsSame(l, st.(mask := on), r.st, {});
        OneSame(c, Truth(op == Or), l);
      }
    }
    hide Decided, SameOutside;
  }

  lemma EagerRuns(n: Node, st: St, env: Env, w: Place, k: nat)
    requires n.kind.Logical? && |n.kids| == 2 && !n.kind.shortCircuit && Pure(n.kids[1])
    ensures
      var r := Run(n.kids[0], st, env, w, k);
      if !r.Done? then Run(n, st, env, w, k) == r
      else
        var b := Run(n.kids[1], r.st, env, w, k);
        b.Done? && b.st == r.st
        && Run(n, st, env, w, k) ==
             Done(r.st, [Combined(n.kind.logical, r.st, Part(r.value, 0), Part(b.value, 0))])
  {
    hide Combined;
    var r := Run(n.kids[0], st, env, w, k);
    if r.Done? {
      PureRuns(n.kids[1], r.st, r.st.mask, env, w, k);
      BothKids(n, st, r, Run(n.kids[1], r.st, env, w, k), env, w, k);
    } else {
      assert RunKids(n, 0, st, env, w, k) == Stopped(r);
    }
  }

  /** Both operands are always evaluated, and the second one only computes. */
  lemma {:induction false} EagerTracks(n: Node, st: St, env: Env, w: Place, k: nat, g: nat, l: Lane)
    requires LaneCode(n, w.depth, g) && n.kind.Logical? && !n.kind.shortCircuit && |st.vars| == g && LaneOK(l, st)
    ensures LaneTracked(n, st, env, w, k, l)
    decreases n, 1, 0
  {
    ShapeOf(n, w.depth, g);
    OperandsShape(n, w.depth, g);
    hide LaneCode, Shaped, Run, LaneRun, NoJump, Changes, KidDepth, KidLocals, Locals, Pure, OwnSecond, Tracks;
    assert KidChanges(n, 0, w.depth) == Changes(n.kids[0], w.depth);
    hide KidChanges;
    KidIn(n, 0, w.depth);
    EagerRuns(n, st, env, w, k);
    var r := Run(n.kids[0], st, env, w, k);
    var own := LaneRun(n.kids[0], l, st.uni, st.vars[l], false, k);
    EagerOperand(n, 0, st, env, w, k, g, l);
    var all := Changes(n, w.depth);
    if r.Done? {
      FirstDone(l, st, r, own, all);
      EagerOperand(n, 1, r.st, env, w, k, g, l);
      var b := Run(n.kids[1], r.st, env, w, k);
      LaneLogicalRuns(n, l, st.uni, st.vars[l], r, w.canContinue, k);
      EagerJoin(n, l, st, r, own, b, k, LaneRun(n, l, st.uni, st.vars[l], w.canContinue, k), all);
    } else {
      EagerStops(l, st, r, own, LaneRun(n, l, st.uni, st.vars[l], w.canContinue, k), all);
    }
  }

  lemma {:induction false} EagerOperand(n: Node, i: nat, st: St, env: Env, w: Place, k: nat, g: nat, l: Lane)
    requires LaneCode(n, w.depth, g) && n.kind.Logical? && i < |n.kids| && |st.vars| == g && LaneOK(l, st)
    requires |n.kids| == 2
    ensures
      var r, own := Run(n.kids[i], st, env, w, k), LaneRun(n.kids[i], l, st.uni, st.vars[l], false, k);
      !own.Left? && Tracks(l, st, r, own, Changes(n, w.depth)) && (r.Done? ==> |r.st.vars| == g)
    decreases n, 0, 0
  {
    ShapeOf(n, w.depth, g);
    OperandsShape(n, w.depth, g);
    assert KidChanges(n, i, w.depth) == Changes(n.kids[i], w.depth);
    hide LaneCode, Shaped, Run, LaneRun, NoJump, Changes, KidDepth, KidChanges, KidLocals, Locals, Pure, Tracks;
    hide VaryingJump, DirectBreak;
    KidIn(n, i, w.depth);
    KidIsLaneCode(n, i, w.depth, g);
    RunTracks(n.kids[i], st, env, w, k, g, l);
    RunRoles(n.kids[i], st, env, w, k, g);
    SamePlace(n.kids[i], l, st.uni, st.vars[l], w.canContinue, k);
    NeverLeaves(n.kids[i], l, st.uni, st.vars[l], w.canContinue, k);
    TracksMore(l, st, Run(n.kids[i], st, env, w, k), LaneRun(n.kids[i], l, st.uni, st.vars[l], false, k),
               KidChanges(n, i, w.depth), Changes(n, w.depth));
  }

  lemma FirstDone(l: Lane, st: St, r: Result, own: LaneResult, names: set<string>)
    requires LaneOK(l, st) && r.Done? && Tracks(l, st, r, own, names) && !own.Left?
    ensures LaneOK(l, r.st)
    ensures l in st.mask ==>
      own.LaneDone? && SameValue(r.value, own.value, l) && own.u == r.st.uni && own.m == r.st.vars[l] && l in r.st.mask
  {
  }

  lemma EagerStops(l: Lane, st: St, r: Result, own: LaneResult, any: LaneResult, names: set<string>)
    requires LaneOK(l, st) && !r.Done? && Tracks(l, st, r, own, names) && !own.Left?
    ensures Tracks(l, st, r, any, names)
  {
  }

  lemma EagerJoin(
    n: Node, l: Lane, st: St, r: Result, own: LaneResult, b: Result, k: nat, all: LaneResult, names: set<string>)
    requires n.kind.Logical? && |n.kids| == 2 && LaneOK(l, st)
    requires r.Done? && Tracks(l, st, r, own, names) && !own.Left? && LaneOK(l, r.st)
    requires b.Done? && b.st == r.st
    requires
      var own2 := LaneRun(n.kids[1], l, r.st.uni, r.st.vars[l], false, k);
      Tracks(l, r.st, b, own2, names)
    requires l in st.mask ==> all == OwnSecond(n, r.st, Part(r.value, 0), l, k)
    ensures
      Tracks(l, st, Done(r.st, [Combined(n.kind.logical, r.st, Part(r.value, 0), Part(b.value, 0))]), all, names)
  {
    hide LaneRun, SameOutside;
    var op, a, c := n.kind.logical, Part(r.value, 0), Part(b.value, 0);
    if l in st.mask {
      var own2 := LaneRun(n.kids[1], l, r.st.uni, r.st.vars[l], false, k);
      assert own2.LaneDone? && InLane(c, l) == Number(own2.value, 0);
      var x := if Decides(op, a, l) then Truth(op == Or) else Truth(Number(own2.value, 0) != 0);
      OneSame(Combined(op, r.st, a, c), x, l);
    }
  }

  // ---------- loops ----------

  lemma {:induction false} QuietLoop(n: Node, under: bool, isBreak: bool, d: nat, g: nat)
    requires LaneCode(n, d, g) && !HasVaryingBreakOrContinue(n, under)
    ensures !VaryingJump(n, under, isBreak)
  {
    ShapeOf(n, d, g);
    assert !n.kind.Foreach? by {
      if n.kind.Foreach? {
        NotLaneCode(n, d, g);
      }
    }
    hide Uniform, LaneCode, Shaped;
    if !n.kind.Break? && !n.kind.Continue? && !OwnsJumps(n.kind) {
      forall i | 0 <= i < |n.kids|
        ensures !VaryingJump(n.kids[i], UnderIn(n, under), isBreak)
      {
        KidIsLaneCode(n, i, d, g);
        QuietLoop(n.kids[i], UnderIn(n, under), isBreak, KidDepth(n, i, d), g);
      }
    }
  }

  predicate IsLoop(n: Node, test: nat, body: nat)
  {
    || (n.kind.For? && |n.kids| == 4 && test == 1 && body == 3)
    || (n.kind.Do? && |n.kids| == 2 && test == 1 && body == 0)
  }

  /** Is the loop emitted with uniform control flow? */
  predicate Steady(n: Node, test: nat, body: nat)
    requires IsLoop(n, test, body)
  {
    UniformLoop(n.kids[test], n.kids[body])
  }

  lemma LoopShape(n: Node, test: nat, body: nat, d: nat, g: nat)
    requires Shaped(n, d, g) && IsLoop(n, test, body)
    ensures BodyOK(n, body, d) && NoJump(n.kids[test]) && (n.kind.For? ==> NoJump(n.kids[0]) && NoJump(n.kids[2]))
    ensures !Steady(n, test, body) ==> Changes(n, d) == {}
    ensures Changes(n, d) == KidsChange(n, 0, d) - Locals(n)
    ensures forall i: nat :: i < |n.kids| ==> KidDepth(n, i, d) == KidDepth(n, 0, d)
    ensures forall i: nat :: i < |n.kids| && i != body ==> KidLocals(n, i) == {}
    ensures KidLocals(n, body) == Declared(n.kids[body]) && Body(n, d) == Place(true, KidDepth(n, 0, d), true)
  {
    hide NoJump, UniformLoop, BodyOK, KidsChange, Declared;
  }

  /** The header's parts. */
  lemma {:induction false} HeaderAgrees(
    n: Node, test: nat, body: nat, i: nat, st: St, env: Env, d: nat, k: nat, g: nat, l: Lane)
    requires LaneCode(n, d, g) && IsLoop(n, test, body) && i < |n.kids| && i != body && |st.vars| == g && LaneOK(l, st)
    ensures
      PartTracks(l, st, Run(n.kids[i], st, env, Plain(KidDepth(n, 0, d)), k),
                 LaneRun(n.kids[i], l, st.uni, st.vars[l], false, k), KidsChange(n, 0, d))
    decreases n, 0, 1
  {
    ShapeOf(n, d, g);
    LoopShape(n, test, body, d, g);
    hide LaneCode, Shaped, Run, LaneRun, NoJump, Changes, KidDepth, KidChanges, KidLocals, Locals, PartTracks, BodyOK;
    hide KidsChange, UniformLoop, Body;
    PartAgrees(n, i, st, env, d, k, g, l);
    KidChangesIn(n, 0, i, d);
    PartMore(l, st, Run(n.kids[i], st, env, Plain(KidDepth(n, 0, d)), k),
             LaneRun(n.kids[i], l, st.uni, st.vars[l], false, k), KidChanges(n, i, d), KidsChange(n, 0, d));
  }

  lemma {:induction false} LoopTestAgrees(
    n: Node, test: nat, body: nat, st: St, env: Env, d: nat, k: nat, g: nat, l: Lane)
    requires LaneCode(n, d, g) && IsLoop(n, test, body) && |st.vars| == g && HeadOK(l, st)
    ensures
      TestTracks(n.kids[test], Steady(n, test, body), l, st, Run(n.kids[test], st, env, Plain(KidDepth(n, 0, d)), k),
                 LaneRun(n.kids[test], l, st.uni, st.vars[l], false, k), KidsChange(n, 0, d))
    decreases n, 0, 2
  {
    ShapeOf(n, d, g);
    LoopShape(n, test, body, d, g);
    HeaderAgrees(n, test, body, test, st, env, d, k, g, l);
    var t := Run(n.kids[test], st, env, Plain(KidDepth(n, 0, d)), k);
    if Steady(n, test, body) && n.kids[test].kind != Null && t.Done? {
      assert Uniform(n.kids[test]);
      hide LaneCode, Shaped, Run, Uniform, KidDepth;
      PartIsEven(n, test, st, env, d, k, g, l);
    }
    hide LaneCode, Shaped, Run, LaneRun, KidDepth, KidsChange, Steady, PartTracks, TestTracks;
    TestFollows(n.kids[test], Steady(n, test, body), l, st, t, LaneRun(n.kids[test], l, st.uni, st.vars[l], false, k),
                KidsChange(n, 0, d));
  }

  lemma {:induction false} BodyAgrees(
    n: Node, test: nat, body: nat, st: St, env: Env, d: nat, k: nat, g: nat, l: Lane)
    requires LaneCode(n, d, g) && IsLoop(n, test, body) && |st.vars| == g && HeadOK(l, st)
    ensures
      BodyTracks(l, st, RunScope(n.kids[body], st, env, Body(n, d), k),
                 LaneScope(n.kids[body], l, st.uni, st.vars[l], true, k), Steady(n, test, body), KidsChange(n, 0, d))
    decreases n, 0, 0
  {
    ShapeOf(n, d, g);
    LoopShape(n, test, body, d, g);
    assert KidChanges(n, body, d) == Changes(n.kids[body], KidDepth(n, 0, d)) - Declared(n.kids[body]);
    KidIsLaneCode(n, body, d, g);
    KidChangesIn(n, 0, body, d);
    hide LaneCode, Shaped, RunScope, LaneScope, NoJump, Changes, KidDepth, KidChanges, KidLocals, Locals, KidsChange;
    hide Uniform, VaryingJump, DirectBreak, HasVaryingBreakOrContinue, Tracks, BodyTracks;
    var w, kid := Body(n, d), n.kids[body];
    ScopeTracks(kid, st, env, w, k, g, l);
    ScopeRoles(kid, st, env, w, k, g);
    ScopesHaveNoValue(kid, l, st.uni, st.vars[l], true, k);
    if Steady(n, test, body) {
      QuietLoop(kid, false, true, w.depth, g);
      QuietLoop(kid, false, false, w.depth, g);
    }
    BodyFollows(l, st, RunScope(kid, st, env, w, k), LaneScope(kid, l, st.uni, st.vars[l], true, k),
                Steady(n, test, body), VaryingJump(kid, false, false), KidChanges(n, body, d), KidsChange(n, 0, d));
  }

  /** What lane l does from its start of an iteration's body on. */
  ghost function OwnBody(n: Node, l: Lane, u: Memory, m: Memory, count: nat, k: nat): LaneResult
    requires n.kind.For? && |n.kids| == 4 && count > 0
  {
    var r := LaneScope(n.kids[3], l, u, m, true, k);
    if !GoesOn(r) then PastBreak(r)
    else
      var s := LaneRun(n.kids[2], l, r.u, r.m, false, k);
      if !s.LaneDone? then s else LaneFor(n, l, s.u, s.m, count - 1, k)
  }

  lemma LaneForRuns(n: Node, l: Lane, u: Memory, m: Memory, count: nat, k: nat)
    requires n.kind.For? && |n.kids| == 4
    ensures
      var t := LaneRun(n.kids[1], l, u, m, false, k);
      LaneFor(n, l, u, m, count, k) ==
        if !t.LaneDone? then t
        else if LaneStops(n.kids[1], t) then LaneDone(t.u, t.m, [])
        else if count == 0 then Endless
        else OwnBody(n, l, t.u, t.m, count, k)
  {
    hide LaneRun, LaneScope;
  }

  ghost function GangBody(n: Node, start: St, env: Env, d: nat, count: nat, k: nat): Result
    requires n.kind.For? && |n.kids| == 4 && count > 0
  {
    var r := RunScope(n.kids[3], start, env, Body(n, d), k);
    if r.Jumped? && r.toBreak then Done(r.st, [])
    else if !r.Done? && !r.Jumped? then r
    else
      var s := Run(n.kids[2], NextIteration(r.st), env, Plain(KidDepth(n, 0, d)), k);
      if !s.Done? then s else RunFor(n, s.st, env, d, count - 1, k)
  }

  lemma ForRuns(n: Node, st: St, env: Env, d: nat, count: nat, k: nat)
    requires n.kind.For? && |n.kids| == 4
    ensures
      var t := Run(n.kids[1], st, env, Plain(KidDepth(n, 0, d)), k);
      var uniformLoop := UniformLoop(n.kids[1], n.kids[3]);
      RunFor(n, st, env, d, count, k) ==
        if !t.Done? then t
        else
          var start := Tested(n.kids[1], uniformLoop, t);
          if Stops(n.kids[1], uniformLoop, t) then Done(start, [])
          else if count == 0 then Unfinished
          else GangBody(n, start, env, d, count, k)
  {
    hide Run, RunScope, UniformLoop, KidDepth, Body, Tested, Stops, NextIteration;
  }

  lemma {:induction false} ForAgrees(n: Node, st: St, env: Env, d: nat, count: nat, k: nat, g: nat, l: Lane)
    requires LaneCode(n, d, g) && n.kind.For? && |n.kids| == 4 && |st.vars| == g && HeadOK(l, st)
    ensures
      LoopTracks(l, st, RunFor(n, st, env, d, count, k), LaneFor(n, l, st.uni, st.vars[l], count, k),
                 Steady(n, 1, 3), KidsChange(n, 0, d))
    decreases n, 1, 3 * count + 2
  {
    hide LaneCode, Run, LaneRun, RunFor, LaneFor, KidDepth, KidsChange, UniformLoop, Tested, Stops, GangBody, OwnBody;
    hide TestTracks, LoopTracks;
    ForRuns(n, st, env, d, count, k);
    LaneForRuns(n, l, st.uni, st.vars[l], count, k);
    LoopTestAgrees(n, 1, 3, st, env, d, k, g, l);
    var t := Run(n.kids[1], st, env, Plain(KidDepth(n, 0, d)), k);
    var own := LaneRun(n.kids[1], l, st.uni, st.vars[l], false, k);
    var exact, names := Steady(n, 1, 3), KidsChange(n, 0, d);
    var any := LaneFor(n, l, st.uni, st.vars[l], count, k);
    TestEnds(n.kids[1], exact, l, st, t, own, names);
    if !t.Done? {
      NoLoop(l, st, t, any, exact, names);
    } else {
      var start := Tested(n.kids[1], exact, t);
      var r := if count == 0 then Unfinished else GangBody(n, start, env, d, count, k);
      var rest := if count == 0 then Endless else OwnBody(n, l, start.uni, start.vars[l], count, k);
      if count == 0 {
        NoLoop(l, start, r, rest, exact, names);
      } else {
        BodyLoopAgrees(n, start, env, d, count, k, g, l);
      }
      TestLoop(n.kids[1], l, st, t, own, r, rest, exact, names);
      if l !in st.mask {
        AnyLoop(l, st, RunFor(n, st, env, d, count, k),
                if own.LaneDone? && LaneStops(n.kids[1], own) then LaneDone(own.u, own.m, []) else rest,
                any, exact, names);
      }
    }
  }

  lemma TestEnds(test: Node, exact: bool, l: Lane, st: St, t: Result, own: LaneResult, names: set<string>)
    requires TestTracks(test, exact, l, st, t, own, names)
    ensures !t.Jumped?
    ensures t.Done? ==> HeadOK(l, Tested(test, exact, t)) && |Tested(test, exact, t).vars| == |st.vars|
    ensures t.Done? && l in st.mask ==>
      own.LaneDone? && Tested(test, exact, t).uni == own.u && Tested(test, exact, t).vars[l] == own.m
  {
    hide SameOutside;
  }

  lemma {:induction false} BodyLoopAgrees(
    n: Node, st: St, env: Env, d: nat, count: nat, k: nat, g: nat, l: Lane)
    requires LaneCode(n, d, g) && n.kind.For? && |n.kids| == 4 && |st.vars| == g && HeadOK(l, st) && count > 0
    ensures
      LoopTracks(l, st, GangBody(n, st, env, d, count, k), OwnBody(n, l, st.uni, st.vars[l], count, k),
                 Steady(n, 1, 3), KidsChange(n, 0, d))
    decreases n, 1, 3 * count + 1
  {
    hide LaneCode, Run, LaneRun, RunScope, LaneScope, RunFor, LaneFor, KidDepth, KidsChange, UniformLoop, NextIteration;
    hide BodyTracks, LoopTracks, NextTracks;
    var exact, names := Steady(n, 1, 3), KidsChange(n, 0, d);
    BodyAgrees(n, 1, 3, st, env, d, k, g, l);
    var r := RunScope(n.kids[3], st, env, Body(n, d), k);
    var own := LaneScope(n.kids[3], l, st.uni, st.vars[l], true, k);
    BodyEnds(l, st, r, own, exact, names);
    if r.Done? || (r.Jumped? && !r.toBreak) {
      var next := NextIteration(r.st);
      StepLoopAgrees(n, st, next, own, env, d, count, k, g, l);
    }
  }

  /** When the body has not led to the next iteration. */
  lemma BodyEnds(l: Lane, st: St, r: Result, own: LaneResult, exact: bool, names: set<string>)
    requires BodyTracks(l, st, r, own, exact, names)
    ensures r.Jumped? && r.toBreak ==> LoopTracks(l, st, Done(r.st, []), PastBreak(own), exact, names)
    ensures r.Jumped? && r.toBreak && l in st.mask ==> !GoesOn(own)
    ensures r.Jumped? && r.toBreak && l !in st.mask ==>
      forall any :: LoopTracks(l, st, Done(r.st, []), any, exact, names)
    ensures r.Fault? || r.Unfinished? ==> forall any :: LoopTracks(l, st, r, any, exact, names)
    ensures r.Done? || (r.Jumped? && !r.toBreak) ==> NextTracks(l, st, NextIteration(r.st), own, exact, names)
  {
    hide Through, Rests, NextTracks;
  }

  lemma {:induction false} StepLoopAgrees(
    n: Node, st: St, next: St, own: LaneResult, env: Env, d: nat, count: nat, k: nat, g: nat, l: Lane)
    requires LaneCode(n, d, g) && n.kind.For? && |n.kids| == 4 && |st.vars| == g && count > 0
    requires l < g && own == LaneScope(n.kids[3], l, st.uni, st.vars[l], true, k)
    requires NextTracks(l, st, next, own, Steady(n, 1, 3), KidsChange(n, 0, d))
    ensures
      var s := Run(n.kids[2], next, env, Plain(KidDepth(n, 0, d)), k);
      LoopTracks(l, st, if !s.Done? then s else RunFor(n, s.st, env, d, count - 1, k),
                 OwnBody(n, l, st.uni, st.vars[l], count, k), Steady(n, 1, 3), KidsChange(n, 0, d))
    decreases n, 1, 3 * count
  {
    hide LaneCode, Run, LaneRun, LaneScope, RunFor, LaneFor, KidDepth, KidsChange, UniformLoop, LoopTracks, NextTracks;
    hide PartTracks, HeadOK;
    var exact, names := Steady(n, 1, 3), KidsChange(n, 0, d);
    NextOK(l, st, next, own, exact, names);
    HeaderAgrees(n, 1, 3, 2, next, env, d, k, g, l);
    var s := Run(n.kids[2], next, env, Plain(KidDepth(n, 0, d)), k);
    var own1 := LaneRun(n.kids[2], l, next.uni, next.vars[l], false, k);
    PartResult(l, next, s, own1, names);
    var all := OwnBody(n, l, st.uni, st.vars[l], count, k);
    if !s.Done? {
      NoLoop(l, st, s, all, exact, names);
    } else {
      PartDone(l, next, s, own1, names);
      IterationFollows(l, st, next, own, s, own1, exact, names);
      var own2 := if GoesOn(own) then own1 else own;
      NextOK(l, st, s.st, own2, exact, names);
      ForAgrees(n, s.st, env, d, count - 1, k, g, l);
      var r := RunFor(n, s.st, env, d, count - 1, k);
      var rest := LaneFor(n, l, s.st.uni, s.st.vars[l], count - 1, k);
      LoopFollows(l, st, s.st, own2, r, rest, exact, names);
      if l !in st.mask {
        AnyLoop(l, st, r, if GoesOn(own2) then rest else PastBreak(own2), all, exact, names);
      }
    }
  }

  lemma PartDone(l: Lane, st: St, r: Result, own: LaneResult, names: set<string>)
    requires PartTracks(l, st, r, own, names) && r.Done?
    ensures |r.st.vars| == |st.vars| && LaneOK(l, r.st)
    ensures l in st.mask ==> own.LaneDone? && own.u == r.st.uni && own.m == r.st.vars[l]
  {
  }

  lemma NextOK(l: Lane, st: St, next: St, own: LaneResult, exact: bool, names: set<string>)
    requires NextTracks(l, st, next, own, exact, names)
    ensures HeadOK(l, next) && LaneOK(l, next) && |next.vars| == |st.vars|
    ensures l in st.mask && GoesOn(own) ==> l in next.mask && own.u == next.uni && own.m == next.vars[l]
  {
    hide Through;
  }

  lemma ForWhole(n: Node, st: St, env: Env, w: Place, k: nat)
    requires n.kind.For? && |n.kids| == 4
    ensures
      var r := Run(n.kids[0], st, env, Plain(KidDepth(n, 0, w.depth)), k);
      Run(n, st, env, w, k) ==
        if !r.Done? then r
        else Leave(st, FinishLoop(st, RunFor(n, EnterLoop(r.st), env, w.depth, k, k)), Locals(n))
  {
    hide RunFor, KidDepth, Leave, FinishLoop, Locals, EnterLoop;
  }

  lemma LaneForWhole(n: Node, l: Lane, u: Memory, m: Memory, inLoop: bool, k: nat)
    requires n.kind.For? && |n.kids| == 4
    ensures
      var r := LaneRun(n.kids[0], l, u, m, false, k);
      LaneRun(n, l, u, m, inLoop, k) ==
        if !r.LaneDone? then r else LeaveLane(u, m, LaneFor(n, l, r.u, r.m, k, k), Locals(n))
  {
    hide LaneFor, LeaveLane, Locals;
  }

  lemma {:induction false} ForTracks(n: Node, st: St, env: Env, w: Place, k: nat, g: nat, l: Lane)
    requires LaneCode(n, w.depth, g) && n.kind.For? && |st.vars| == g && LaneOK(l, st)
    ensures LaneTracked(n, st, env, w, k, l)
    decreases n, 1, 3 * k + 4
  {
    ShapeOf(n, w.depth, g);
    assert |n.kids| == 4;
    LoopShape(n, 1, 3, w.depth, g);
    hide LaneCode, Shaped, Run, LaneRun, RunFor, LaneFor, KidDepth, KidsChange, UniformLoop, Changes, Locals, NoJump;
    hide PartTracks, LoopTracks, Tracks, FinishLoop, Leave, LeaveLane, BodyOK, Body, KidLocals;
    ForWhole(n, st, env, w, k);
    LaneForWhole(n, l, st.uni, st.vars[l], w.canContinue, k);
    HeaderAgrees(n, 1, 3, 0, st, env, w.depth, k, g, l);
    var r := Run(n.kids[0], st, env, Plain(KidDepth(n, 0, w.depth)), k);
    var own := LaneRun(n.kids[0], l, st.uni, st.vars[l], false, k);
    var names := KidsChange(n, 0, w.depth);
    var any := LaneRun(n, l, st.uni, st.vars[l], w.canContinue, k);
    if !r.Done? {
      PartStops(l, st, r, own, any, names, Changes(n, w.depth));
    } else {
      PartDone(l, st, r, own, names);
      PartWaits(l, st, r, own, names);
      HeadAgrees(n, st, r.st, env, w.depth, k, g, l);
      if l !in st.mask {
        AnyOwn(l, st, Run(n, st, env, w, k),
               LeaveLane(st.uni, st.vars[l], LaneFor(n, l, r.st.uni, r.st.vars[l], k, k), Locals(n)), any,
               Changes(n, w.depth));
      }
    }
  }

  lemma PartWaits(l: Lane, st: St, r: Result, own: LaneResult, names: set<string>)
    requires PartTracks(l, st, r, own, names) && r.Done?
    ensures if l in st.mask then l in r.st.mask else Waits(l, st, r.st, names)
  {
  }

  /** A for loop entered in st, with its initialization done in st1. */
  lemma {:induction false} HeadAgrees(
    n: Node, st: St, st1: St, env: Env, d: nat, k: nat, g: nat, l: Lane)
    requires LaneCode(n, d, g) && n.kind.For? && |n.kids| == 4 && |st.vars| == |st1.vars| == g
    requires LaneOK(l, st) && LaneOK(l, st1)
    requires if l in st.mask then l in st1.mask else Waits(l, st, st1, KidsChange(n, 0, d))
    ensures
      Tracks(l, st, Leave(st, FinishLoop(st, RunFor(n, EnterLoop(st1), env, d, k, k)), Locals(n)),
             LeaveLane(st.uni, st.vars[l], LaneFor(n, l, st1.uni, st1.vars[l], k, k), Locals(n)), Changes(n, d))
    decreases n, 1, 3 * k + 3
  {
    ShapeOf(n, d, g);
    LoopShape(n, 1, 3, d, g);
    hide LaneCode, Shaped, RunFor, LaneFor, KidDepth, KidsChange, UniformLoop, Changes, Locals, NoJump, BodyOK, Body;
    hide KidLocals, LoopTracks, Tracks, FinishLoop, Leave, LeaveLane, Waits;
    ForAgrees(n, EnterLoop(st1), env, d, k, k, g, l);
    ForNeverJumps(n, EnterLoop(st1), env, d, k, k, g);
    LoopEnds(l, st, st1, RunFor(n, EnterLoop(st1), env, d, k, k), LaneFor(n, l, st1.uni, st1.vars[l], k, k),
             Steady(n, 1, 3), KidsChange(n, 0, d), Locals(n));
  }

  // ---------- do ----------

  ghost function OwnTest(n: Node, l: Lane, u: Memory, m: Memory, count: nat, k: nat): LaneResult
    requires n.kind.Do? && |n.kids| == 2
  {
    var t := LaneRun(n.kids[1], l, u, m, false, k);
    if !t.LaneDone? then t
    else if LaneStops(n.kids[1], t) then LaneDone(t.u, t.m, [])
    else if count == 0 then Endless
    else LaneDo(n, l, t.u, t.m, count - 1, k)
  }

  lemma LaneDoRuns(n: Node, l: Lane, u: Memory, m: Memory, count: nat, k: nat)
    requires n.kind.Do? && |n.kids| == 2
    ensures
      var r := LaneScope(n.kids[0], l, u, m, true, k);
      LaneDo(n, l, u, m, count, k) == if GoesOn(r) then OwnTest(n, l, r.u, r.m, count, k) else PastBreak(r)
  {
    hide LaneRun, LaneScope;
  }

  ghost function GangTest(n: Node, next: St, env: Env, d: nat, count: nat, k: nat): Result
    requires n.kind.Do? && |n.kids| == 2
  {
    var exact := UniformLoop(n.kids[1], n.kids[0]);
    var t := Run(n.kids[1], next, env, Plain(KidDepth(n, 0, d)), k);
    if !t.Done? then t
    else
      var start := Tested(n.kids[1], exact, t);
      if Stops(n.kids[1], exact, t) then Done(start, [])
      else if count == 0 then Unfinished
      else RunDo(n, start, env, d, count - 1, k)
  }

  lemma DoRuns(n: Node, st: St, env: Env, d: nat, count: nat, k: nat)
    requires n.kind.Do? && |n.kids| == 2
    ensures
      var r := RunScope(n.kids[0], st, env, Body(n, d), k);
      RunDo(n, st, env, d, count, k) ==
        if r.Jumped? && r.toBreak then Done(r.st, [])
        else if !r.Done? && !r.Jumped? then r
        else GangTest(n, NextIteration(r.st), env, d, count, k)
  {
    hide Run, RunScope, UniformLoop, KidDepth, Body, Tested, Stops, NextIteration;
  }

  lemma {:induction false} DoAgrees(n: Node, st: St, env: Env, d: nat, count: nat, k: nat, g: nat, l: Lane)
    requires LaneCode(n, d, g) && n.kind.Do? && |n.kids| == 2 && |st.vars| == g && HeadOK(l, st)
    ensures
      LoopTracks(l, st, RunDo(n, st, env, d, count, k), LaneDo(n, l, st.uni, st.vars[l], count, k),
                 Steady(n, 1, 0), KidsChange(n, 0, d))
    decreases n, 1, 2 * count + 1
  {
    hide LaneCode, RunScope, LaneScope, RunDo, LaneDo, KidsChange, UniformLoop, NextIteration, GangTest, OwnTest, Body;
    hide BodyTracks, LoopTracks, NextTracks;
    var exact, names := Steady(n, 1, 0), KidsChange(n, 0, d);
    BodyAgrees(n, 1, 0, st, env, d, k, g, l);
    DoRuns(n, st, env, d, count, k);
    LaneDoRuns(n, l, st.uni, st.vars[l], count, k);
    var r := RunScope(n.kids[0], st, env, Body(n, d), k);
    var own := LaneScope(n.kids[0], l, st.uni, st.vars[l], true, k);
    BodyEnds(l, st, r, own, exact, names);
    if r.Done? || (r.Jumped? && !r.toBreak) {
      var next := NextIteration(r.st);
      NextOK(l, st, next, own, exact, names);
      DoTestAgrees(n, next, env, d, count, k, g, l);
      var rest := OwnTest(n, l, next.uni, next.vars[l], count, k);
      LoopFollows(l, st, next, own, GangTest(n, next, env, d, count, k), rest, exact, names);
      if l !in st.mask {
        AnyLoop(l, st, RunDo(n, st, env, d, count, k), if GoesOn(own) then rest else PastBreak(own),
                LaneDo(n, l, st.uni, st.vars[l], count, k), exact, names);
      }
    }
  }

  lemma {:induction false} DoTestAgrees(n: Node, st: St, env: Env, d: nat, count: nat, k: nat, g: nat, l: Lane)
    requires LaneCode(n, d, g) && n.kind.Do? && |n.kids| == 2 && |st.vars| == g && HeadOK(l, st)
    ensures
      LoopTracks(l, st, GangTest(n, st, env, d, count, k), OwnTest(n, l, st.uni, st.vars[l], count, k),
                 Steady(n, 1, 0), KidsChange(n, 0, d))
    decreases n, 1, 2 * count
  {
    hide LaneCode, Run, LaneRun, RunDo, LaneDo, KidDepth, KidsChange, UniformLoop, Tested, Stops;
    hide TestTracks, LoopTracks;
    LoopTestAgrees(n, 1, 0, st, env, d, k, g, l);
    var t := Run(n.kids[1], st, env, Plain(KidDepth(n, 0, d)), k);
    var own := LaneRun(n.kids[1], l, st.uni, st.vars[l], false, k);
    var exact, names := Steady(n, 1, 0), KidsChange(n, 0, d);
    var any := OwnTest(n, l, st.uni, st.vars[l], count, k);
    TestEnds(n.kids[1], exact, l, st, t, own, names);
    if !t.Done? {
      NoLoop(l, st, t, any, exact, names);
    } else {
      var start := Tested(n.kids[1], exact, t);
      var r := if count == 0 then Unfinished else RunDo(n, start, env, d, count - 1, k);
      var rest := if count == 0 then Endless else LaneDo(n, l, start.uni, start.vars[l], count - 1, k);
      if count == 0 {
        NoLoop(l, start, r, rest, exact, names);
      } else {
        DoAgrees(n, start, env, d, count - 1, k, g, l);
      }
      TestLoop(n.kids[1], l, st, t, own, r, rest, exact, names);
      if l !in st.mask {
        AnyLoop(l, st, GangTest(n, st, env, d, count, k),
                if own.LaneDone? && LaneStops(n.kids[1], own) then LaneDone(own.u, own.m, []) else rest,
                any, exact, names);
      }
    }
  }

  lemma {:induction false} DoTracks(n: Node, st: St, env: Env, w: Place, k: nat, g: nat, l: Lane)
    requires LaneCode(n, w.depth, g) && n.kind.Do? && |st.vars| == g && LaneOK(l, st)
    ensures LaneTracked(n, st, env, w, k, l)
    decreases n, 1, 2 * k + 2
  {
    ShapeOf(n, w.depth, g);
    assert |n.kids| == 2 && Locals(n) == {};
    LoopShape(n, 1, 0, w.depth, g);
    hide LaneCode, Shaped, RunDo, LaneDo, KidDepth, KidsChange, UniformLoop, Changes, Locals, NoJump, BodyOK, Body;
    hide KidLocals, LoopTracks, Tracks, FinishLoop, Leave, LeaveLane, Waits;
    var d, u, m := w.depth, st.uni, st.vars[l];
    DoAgrees(n, EnterLoop(st), env, d, k, k, g, l);
    DoNeverJumps(n, EnterLoop(st), env, d, k, k, g);
    var r, own := RunDo(n, EnterLoop(st), env, d, k, k), LaneDo(n, l, u, m, k, k);
    BareLoopEnds(l, st, r, own, Steady(n, 1, 0), KidsChange(n, 0, d));
    DoWhole(n, st, env, w, k);
    LaneDoWhole(n, l, u, m, w.canContinue, k);
  }

  lemma DoWhole(n: Node, st: St, env: Env, w: Place, k: nat)
    requires n.kind.Do? && |n.kids| == 2
    ensures Run(n, st, env, w, k) == FinishLoop(st, RunDo(n, EnterLoop(st), env, w.depth, k, k))
  {
    hide RunDo, FinishLoop, EnterLoop;
  }

  lemma LaneDoWhole(n: Node, l: Lane, u: Memory, m: Memory, inLoop: bool, k: nat)
    requires n.kind.Do? && |n.kids| == 2
    ensures LaneRun(n, l, u, m, inLoop, k) == LaneDo(n, l, u, m, k, k)
  {
    hide LaneDo;
  }

  // ---------- switch ----------

  lemma SwitchShape(n: Node, d: nat, g: nat)
    requires Shaped(n, d, g) && n.kind.Switch?
    ensures n.kids != [] && NoJump(n.kids[0]) && DistinctLabels(n) && KidLocals(n, 0) == {} && KidDepth(n, 0, d) == d
    ensures !UniformFlow(n) ==> Changes(n, d) == {}
    ensures !Uniform(n.kids[0]) ==> KidsChange(n, 1, d) == {}
    ensures Changes(n, d) == KidsChange(n, 0, d) - Locals(n)
    ensures KidsChange(n, 0, d) == KidChanges(n, 0, d) + KidsChange(n, 1, d)
    ensures forall i: nat :: 0 < i < |n.kids| ==>
      KidLocals(n, i) == {} && KidChanges(n, i, d) == Changes(n.kids[i], Labels(n, d).depth)
  {
    hide NoJump, UniformFlow, DistinctLabels, Uniform, Locals;
  }

  lemma LabelsRun(
    n: Node, i: nat, st: St, entry: Mask, c: seq<int>, started: bool, env: Env, d: nat, k: nat)
    requires n.kind.Switch? && i < |n.kids|
    ensures
      var uniform := Uniform(n.kids[0]);
      var now := started || Matches(n, n.kids[i], InLane(c, 0));
      var st1 := if uniform then st else st.(mask := st.mask + Starting(n, i, entry, c));
      RunLabels(n, i, st, entry, c, started, env, d, k) ==
        if !now || (!uniform && n.kids[i].kind.Label? && n.kids[i].kind.checkMask && st1.mask == {})
        then RunLabels(n, i + 1, st1, entry, c, now, env, d, k)
        else
          AfterKid(Run(n.kids[i], st1, env, Labels(n, d), k), n, i, entry, c, now, env, d, k)
  {
    hide Run, Uniform, Matches, Starting, Labels;
  }

  ghost function AfterKid(
    r: Result, n: Node, i: nat, entry: Mask, c: seq<int>, now: bool, env: Env, d: nat, k: nat): Result
    requires n.kind.Switch? && i < |n.kids|
  {
    if r.Jumped? && r.toBreak then Done(r.st, [])
    else if !r.Done? then r else RunLabels(n, i + 1, r.st, entry, c, now, env, d, k)
  }

  /** One label's statements. */
  lemma {:induction false} LabelAgrees(n: Node, i: nat, st: St, env: Env, d: nat, k: nat, g: nat, l: Lane)
    requires LaneCode(n, d, g) && n.kind.Switch? && 0 < i < |n.kids| && |st.vars| == g && LaneOK(l, st)
    ensures
      var r := Run(n.kids[i], st, env, Labels(n, d), k);
      && Tracks(l, st, r, LaneRun(n.kids[i], l, st.uni, st.vars[l], false, k), KidsChange(n, 1, d))
      && (r.Done? || r.Jumped? ==>
            |r.st.vars| == g && r.st.continued == st.continued && (UniformFlow(n) ==> r.st.broke == st.broke))
      && (r.Jumped? ==> r.toBreak && Uniform(n.kids[0]))
    decreases n, 0, 0
  {
    ShapeOf(n, d, g);
    SwitchShape(n, d, g);
    LabelDepth(n, i, d);
    KidIsLaneCode(n, i, d, g);
    KidChangesIn(n, 1, i, d);
    var w, kid := Labels(n, d), n.kids[i];
    assert UniformFlow(n) ==> !HasVaryingBreakOrContinue(kid, false) && w.direct;
    hide LaneCode, Shaped, Run, LaneRun, NoJump, Changes, KidDepth, KidChanges, KidLocals, Locals, KidsChange;
    hide Uniform, UniformFlow, VaryingJump, DirectBreak, HasVaryingBreakOrContinue, Tracks, DistinctLabels;
    RunTracks(kid, st, env, w, k, g, l);
    RunRoles(kid, st, env, w, k, g);
    if UniformFlow(n) {
      QuietLoop(kid, false, true, w.depth, g);
    }
    TracksMore(l, st, Run(kid, st, env, w, k), LaneRun(kid, l, st.uni, st.vars[l], false, k), Changes(kid, w.depth),
               KidsChange(n, 1, d));
  }

  /** Lane l starts at this label. */
  lemma StartsHere(n: Node, i: nat, entry: Mask, c: seq<int>, l: Lane)
    requires 1 <= i < |n.kids| && DistinctLabels(n)
    ensures l in Starting(n, i, entry, c) <==> l in entry && i == LabelOf(n, InLane(c, l))
    ensures Matches(n, n.kids[i], InLane(c, l)) <==> i == LabelOf(n, InLane(c, l))
  {
    TargetMatches(n, i, InLane(c, l));
    hide Matches, DistinctLabels, LabelOf;
  }

  lemma {:induction false} LabelsRest(
    n: Node, i: nat, st: St, entry: Mask, c: seq<int>, started: bool, own: LaneResult, env: Env, d: nat, k: nat,
    g: nat, l: Lane)
    requires LaneCode(n, d, g) && n.kind.Switch? && n.kids != [] && i > 0 && |st.vars| == g
    requires l < g && l !in st.mask
    requires Uniform(n.kids[0]) || l !in entry || i > LabelOf(n, InLane(c, l))
    ensures
      LabelsTrack(false, l, st, RunLabels(n, i, st, entry, c, started, env, d, k), own,
                  UniformFlow(n), KidsChange(n, 1, d))
    decreases n, 1, |n.kids| - i, 0
  {
    hide LaneCode, Run, LaneRun, Labels, Starting, Matches, Uniform, UniformFlow, LabelsTrack, Tracks, KidsChange;
    hide LabelOf;
    var exact, names := UniformFlow(n), KidsChange(n, 1, d);
    if i >= |n.kids| {
      LabelsOver(false, l, st, exact, names);
      AnyLabels(l, st, Done(st, []), LaneDone(st.uni, st.vars[l], []), own, exact, names);
    } else {
      var now := started || Matches(n, n.kids[i], InLane(c, 0));
      var st1 := if Uniform(n.kids[0]) then st else st.(mask := st.mask + Starting(n, i, entry, c));
      LabelsRun(n, i, st, entry, c, started, env, d, k);
      SwitchParts(n, d, g);
      StartsHere(n, i, entry, c, l);
      LabelsRest(n, i + 1, st1, entry, c, now, own, env, d, k, g, l);
      SameLabels(false, l, st, st1, RunLabels(n, i + 1, st1, entry, c, now, env, d, k), own, exact, names);
      LabelAgrees(n, i, st1, env, d, k, g, l);
      var r := Run(n.kids[i], st1, env, Labels(n, d), k);
      var any := LaneRun(n.kids[i], l, st1.uni, st1.vars[l], false, k);
      if r.Done? {
        TracksWaits(l, st1, r, any, names);
        LabelsRest(n, i + 1, r.st, entry, c, now, own, env, d, k, g, l);
      }
      AnyOwn(l, st1, r, any, own, names);
      LabelWaits(l, st, st1, r, own, AfterKid(r, n, i, entry, c, now, env, d, k), exact, names, names);
    }
  }

  lemma SwitchParts(n: Node, d: nat, g: nat)
    requires LaneCode(n, d, g) && n.kind.Switch?
    ensures n.kids != [] && DistinctLabels(n)
  {
    ShapeOf(n, d, g);
    hide LaneCode;
  }

  lemma TracksWaits(l: Lane, st: St, r: Result, own: LaneResult, names: set<string>)
    requires Tracks(l, st, r, own, names) && l !in st.mask && r.Done?
    ensures Waits(l, st, r.st, names) && l !in r.st.mask && l < |r.st.vars|
  {
  }

  lemma SameLabels(
    on: bool, l: Lane, st: St, st1: St, r: Result, own: LaneResult, exact: bool, names: set<string>)
    requires LabelsTrack(on, l, st1, r, own, exact, names) && st1 == st.(mask := st1.mask)
    ensures LabelsTrack(on, l, st, r, own, exact, names)
  {
    hide SameOutside, Through;
  }

  /** Where lane l is before the i-th label: switched on, or still to come. */
  ghost predicate LaneAt(n: Node, i: nat, st: St, entry: Mask, c: seq<int>, started: bool, l: Lane)
    requires n.kids != []
  {
    && LaneOK(l, st) && Free(l, st) && l in entry
    && (if Uniform(n.kids[0]) then
          l in st.mask && InLane(c, 0) == InLane(c, l) && (started <==> i > LabelOf(n, InLane(c, l)))
        else started && (l in st.mask <==> i > LabelOf(n, InLane(c, l))))
  }

  function Later(i: nat, j: nat): nat
  {
    if i < j then j else i
  }

  lemma FromAnywhere(l: Lane, a: St, b: St, r: Result, own: LaneResult, exact: bool, names: set<string>)
    requires LabelsTrack(true, l, a, r, own, exact, names)
    ensures LabelsTrack(true, l, b, r, own, exact, names)
  {
  }

  lemma NoLabels(on: bool, l: Lane, st: St, r: Result, own: LaneResult, exact: bool, names: set<string>)
    requires r.Fault? || r.Unfinished?
    ensures LabelsTrack(on, l, st, r, own, exact, names)
  {
  }

  lemma {:induction false} LabelsAgree(
    n: Node, i: nat, st: St, entry: Mask, c: seq<int>, started: bool, env: Env, d: nat, k: nat, g: nat, l: Lane)
    requires LaneCode(n, d, g) && n.kind.Switch? && n.kids != [] && i > 0 && |st.vars| == g
    requires LaneAt(n, i, st, entry, c, started, l)
    ensures
      LabelsTrack(true, l, st, RunLabels(n, i, st, entry, c, started, env, d, k),
                  LaneLabels(n, Later(i, LabelOf(n, InLane(c, l))), l, st.uni, st.vars[l], k),
                  UniformFlow(n), KidsChange(n, 1, d))
    decreases n, 1, |n.kids| - i, 1
  {
    hide LaneCode, RunLabels, LaneLabels, UniformFlow, LabelsTrack, KidsChange, LabelOf;
    if i >= |n.kids| {
      LabelsOver(true, l, st, UniformFlow(n), KidsChange(n, 1, d));
      NoLabelLeft(n, i, l, st, entry, c, started, env, d, k);
    } else if i < LabelOf(n, InLane(c, l)) {
      LabelBefore(n, i, st, entry, c, started, env, d, k, g, l);
    } else {
      LabelOn(n, i, st, entry, c, started, env, d, k, g, l);
    }
  }

  lemma NoLabelLeft(
    n: Node, i: nat, l: Lane, st: St, entry: Mask, c: seq<int>, started: bool, env: Env, d: nat, k: nat)
    requires n.kind.Switch? && n.kids != [] && i >= |n.kids| && l < |st.vars|
    ensures RunLabels(n, i, st, entry, c, started, env, d, k) == Done(st, [])
    ensures forall j: nat :: j >= i ==> LaneLabels(n, j, l, st.uni, st.vars[l], k) == LaneDone(st.uni, st.vars[l], [])
    ensures LabelOf(n, InLane(c, l)) <= i
  {
  }

  /** A label before the lane's own: the lane is skipped or off. */
  lemma {:induction false} LabelBefore(
    n: Node, i: nat, st: St, entry: Mask, c: seq<int>, started: bool, env: Env, d: nat, k: nat, g: nat, l: Lane)
    requires LaneCode(n, d, g) && n.kind.Switch? && 0 < i < |n.kids| && |st.vars| == g
    requires LaneAt(n, i, st, entry, c, started, l) && i < LabelOf(n, InLane(c, l))
    ensures
      LabelsTrack(true, l, st, RunLabels(n, i, st, entry, c, started, env, d, k),
                  LaneLabels(n, LabelOf(n, InLane(c, l)), l, st.uni, st.vars[l], k),
                  UniformFlow(n), KidsChange(n, 1, d))
    decreases n, 1, |n.kids| - i, 0
  {
    ShapeOf(n, d, g);
    SwitchShape(n, d, g);
    hide Shaped, NoJump, Changes, KidLocals, KidDepth, KidChanges, DistinctLabels, Locals;
    hide LaneCode, Run, LaneRun, Labels, Starting, Matches, Uniform, UniformFlow, LabelsTrack, Tracks, KidsChange;
    hide LabelOf, RunLabels, LaneLabels;
    var exact, names := UniformFlow(n), KidsChange(n, 1, d);
    var now := started || Matches(n, n.kids[i], InLane(c, 0));
    var st1 := if Uniform(n.kids[0]) then st else st.(mask := st.mask + Starting(n, i, entry, c));
    LabelsRun(n, i, st, entry, c, started, env, d, k);
    StartsHere(n, i, entry, c, l);
    LabelsAgree(n, i + 1, st1, entry, c, now, env, d, k, g, l);
    FromAnywhere(l, st1, st, RunLabels(n, i + 1, st1, entry, c, now, env, d, k),
                 LaneLabels(n, LabelOf(n, InLane(c, l)), l, st.uni, st.vars[l], k), exact, names);
    if !Uniform(n.kids[0]) {
      LabelAgrees(n, i, st1, env, d, k, g, l);
      var r := Run(n.kids[i], st1, env, Labels(n, d), k);
      if r.Done? {
        TracksWaits(l, st1, r, LaneRun(n.kids[i], l, st1.uni, st1.vars[l], false, k), names);
        WaitsSame(l, st1, r.st, names);
        LabelsAgree(n, i + 1, r.st, entry, c, now, env, d, k, g, l);
        FromAnywhere(l, r.st, st, RunLabels(n, i + 1, r.st, entry, c, now, env, d, k),
                     LaneLabels(n, LabelOf(n, InLane(c, l)), l, st.uni, st.vars[l], k), exact, names);
      } else {
        NoLabels(true, l, st, r, LaneLabels(n, LabelOf(n, InLane(c, l)), l, st.uni, st.vars[l], k), exact, names);
      }
    }
  }

  lemma LaneLabelsRun(n: Node, i: nat, l: Lane, u: Memory, m: Memory, k: nat)
    requires n.kind.Switch? && i < |n.kids|
    ensures
      var own := LaneRun(n.kids[i], l, u, m, false, k);
      LaneLabels(n, i, l, u, m, k) == if !own.LaneDone? then own else LaneLabels(n, i + 1, l, own.u, own.m, k)
  {
    hide LaneRun;
  }

  /** The lane's own label, or one after it. */
  lemma {:induction false} LabelOn(
    n: Node, i: nat, st: St, entry: Mask, c: seq<int>, started: bool, env: Env, d: nat, k: nat, g: nat, l: Lane)
    requires LaneCode(n, d, g) && n.kind.Switch? && 0 < i < |n.kids| && |st.vars| == g
    requires LaneAt(n, i, st, entry, c, started, l) && i >= LabelOf(n, InLane(c, l))
    ensures
      LabelsTrack(true, l, st, RunLabels(n, i, st, entry, c, started, env, d, k),
                  LaneLabels(n, i, l, st.uni, st.vars[l], k), UniformFlow(n), KidsChange(n, 1, d))
    decreases n, 1, |n.kids| - i, 0
  {
    SwitchParts(n, d, g);
    hide DistinctLabels, LabelOf, RunLabels, LaneLabels;
    hide LaneCode, Run, LaneRun, Labels, Starting, Matches, Uniform, UniformFlow, LabelsTrack, Tracks, KidsChange;
    var now := started || Matches(n, n.kids[i], InLane(c, 0));
    var st1 := if Uniform(n.kids[0]) then st else st.(mask := st.mask + Starting(n, i, entry, c));
    LabelsRun(n, i, st, entry, c, started, env, d, k);
    StartsHere(n, i, entry, c, l);
    assert now && l in st1.mask && LaneOK(l, st1) && Free(l, st1);
    RestOfLabels(n, i, st1, entry, c, now, env, d, k, g, l);
    FromAnywhere(l, st1, st, RunLabels(n, i, st, entry, c, started, env, d, k),
                 LaneLabels(n, i, l, st.uni, st.vars[l], k), UniformFlow(n), KidsChange(n, 1, d));
  }

  lemma {:induction false} RestOfLabels(
    n: Node, i: nat, st: St, entry: Mask, c: seq<int>, now: bool, env: Env, d: nat, k: nat, g: nat, l: Lane)
    requires LaneCode(n, d, g) && n.kind.Switch? && 0 < i < |n.kids| && |st.vars| == g && now
    requires LaneOK(l, st) && l in st.mask && l in entry && i >= LabelOf(n, InLane(c, l))
    requires Uniform(n.kids[0]) ==> InLane(c, 0) == InLane(c, l)
    ensures
      LabelsTrack(true, l, st, AfterKid(Run(n.kids[i], st, env, Labels(n, d), k), n, i, entry, c, now, env, d, k),
                  LaneLabels(n, i, l, st.uni, st.vars[l], k), UniformFlow(n), KidsChange(n, 1, d))
    decreases n, 1, |n.kids| - i - 1, 2
  {
    hide LabelOf, RunLabels, LaneLabels;
    hide LaneCode, Run, LaneRun, Labels, Uniform, UniformFlow, LabelsTrack, Tracks, KidsChange;
    var exact, names := UniformFlow(n), KidsChange(n, 1, d);
    LabelAgrees(n, i, st, env, d, k, g, l);
    LaneLabelsRun(n, i, l, st.uni, st.vars[l], k);
    var r := Run(n.kids[i], st, env, Labels(n, d), k);
    var own := LaneRun(n.kids[i], l, st.uni, st.vars[l], false, k);
    if r.Fault? || r.Unfinished? {
      NoLabels(true, l, st, r, LaneLabels(n, i, l, st.uni, st.vars[l], k), exact, names);
    } else {
      LabelLeft(l, st, r, own, names);
      var rest := if r.Done? then RunLabels(n, i + 1, r.st, entry, c, now, env, d, k) else r;
      var own1 := if r.Done? && l in r.st.mask then LaneLabels(n, i + 1, l, r.st.uni, r.st.vars[l], k) else own;
      if r.Done? {
        if l in r.st.mask {
          LabelsAgree(n, i + 1, r.st, entry, c, now, env, d, k, g, l);
        } else {
          LabelsRest(n, i + 1, r.st, entry, c, now, own1, env, d, k, g, l);
        }
      }
      LabelFollows(l, st, r, own, rest, own1, exact, names, names);
    }
  }

  lemma LabelLeft(l: Lane, st: St, r: Result, own: LaneResult, names: set<string>)
    requires Tracks(l, st, r, own, names) && l in st.mask && (r.Done? || r.Jumped?)
    ensures LaneOK(l, r.st)
    ensures r.Done? && l in r.st.mask ==>
      own.LaneDone? && own.u == r.st.uni && own.m == r.st.vars[l] && Free(l, r.st)
    ensures !(r.Done? && l in r.st.mask) ==> own.Left?
  {
  }

  lemma SwitchWhole(n: Node, st: St, env: Env, w: Place, k: nat)
    requires n.kind.Switch? && n.kids != []
    ensures
      var t := Run(n.kids[0], st, env, Plain(w.depth), k);
      Run(n, st, env, w, k) ==
        if !t.Done? then t
        else
          var c, started := Part(t.value, 0), !Uniform(n.kids[0]);
          var r := RunLabels(n, 1, SwitchedIn(n, t.st), t.st.mask, c, started, env, w.depth, k);
          Leave(st, FinishSwitch(t.st, r), Locals(n))
  {
    hide RunLabels, Leave, FinishSwitch, Locals, Uniform;
    assert Run(n, st, env, w, k) == RunSwitch(n, st, env, w, k);
  }

  lemma SwitchStops(n: Node, st: St, env: Env, w: Place, k: nat)
    requires n.kind.Switch? && n.kids != []
    ensures
      var t := Run(n.kids[0], st, env, Plain(w.depth), k);
      !t.Done? ==> Run(n, st, env, w, k) == t
  {
    SwitchWhole(n, st, env, w, k);
    hide Run;
  }

  function SwitchedIn(n: Node, st: St): St
    requires n.kids != []
  {
    st.(broke := {}, mask := if Uniform(n.kids[0]) then st.mask else {})
  }

  /** What lane l does in a switch that is entered in st, after its value t. */
  ghost function OwnSwitch(n: Node, st: St, t: Result, l: Lane, k: nat): LaneResult
    requires n.kind.Switch? && n.kids != [] && t.Done? && l < |st.vars| && l < |t.st.vars|
  {
    var own := LaneLabels(n, LabelOf(n, InLane(Part(t.value, 0), l)), l, t.st.uni, t.st.vars[l], k);
    LeaveLane(st.uni, st.vars[l], PastBreak(own), Locals(n))
  }

  lemma LaneSwitchWhole(n: Node, l: Lane, st: St, t: Result, inLoop: bool, k: nat)
    requires n.kind.Switch? && n.kids != [] && t.Done? && l < |st.vars| && l < |t.st.vars|
    ensures
      var own := LaneRun(n.kids[0], l, st.uni, st.vars[l], false, k);
      own.LaneDone? && SameValue(t.value, own.value, l) && own.u == t.st.uni && own.m == t.st.vars[l] ==>
        LaneRun(n, l, st.uni, st.vars[l], inLoop, k) == OwnSwitch(n, st, t, l, k)
  {
    hide LaneLabels, LeaveLane, Locals, LabelOf;
  }

  lemma {:induction false} SwitchTracks(n: Node, st: St, env: Env, w: Place, k: nat, g: nat, l: Lane)
    requires LaneCode(n, w.depth, g) && n.kind.Switch? && |st.vars| == g && LaneOK(l, st)
    ensures LaneTracked(n, st, env, w, k, l)
    decreases n, 1, |n.kids| + 2
  {
    ShapeOf(n, w.depth, g);
    SwitchShape(n, w.depth, g);
    PartAgrees(n, 0, st, env, w.depth, k, g, l);
    SwitchStops(n, st, env, w, k);
    hide LaneCode, Shaped, Run, LaneRun, KidDepth, KidsChange, KidChanges, Changes, Locals;
    hide PartTracks, Tracks, NoJump, DistinctLabels, Uniform, UniformFlow, SameValue, KidLocals, Waits, OwnSwitch;
    var t := Run(n.kids[0], st, env, Plain(w.depth), k);
    var own := LaneRun(n.kids[0], l, st.uni, st.vars[l], false, k);
    var any := LaneRun(n, l, st.uni, st.vars[l], w.canContinue, k);
    var first := KidChanges(n, 0, w.depth);
    if !t.Done? {
      PartStops(l, st, t, own, any, first, Changes(n, w.depth));
    } else {
      PartDone(l, st, t, own, first);
      PartWaits(l, st, t, own, first);
      AfterValue(n, st, t, env, w, k, g, l);
      if l in st.mask {
        PartValue(l, st, t, own, first);
        LaneSwitchWhole(n, l, st, t, w.canContinue, k);
      } else {
        AnyOwn(l, st, Run(n, st, env, w, k), OwnSwitch(n, st, t, l, k), any, Changes(n, w.depth));
      }
    }
  }

  lemma PartValue(l: Lane, st: St, r: Result, own: LaneResult, names: set<string>)
    requires PartTracks(l, st, r, own, names) && r.Done? && l in st.mask
    ensures own.LaneDone? && SameValue(r.value, own.value, l) && Free(l, r.st)
  {
  }

  /** A switch that was entered in st, after its value t. */
  lemma {:induction false} AfterValue(n: Node, st: St, t: Result, env: Env, w: Place, k: nat, g: nat, l: Lane)
    requires LaneCode(n, w.depth, g) && n.kind.Switch? && n.kids != [] && |st.vars| == g && l < g
    requires t.Done? && t == Run(n.kids[0], st, env, Plain(w.depth), k) && |t.st.vars| == g && LaneOK(l, t.st)
    requires if l in st.mask then l in t.st.mask else Waits(l, st, t.st, KidChanges(n, 0, w.depth))
    ensures Tracks(l, st, Run(n, st, env, w, k), OwnSwitch(n, st, t, l, k), Changes(n, w.depth))
    decreases n, 1, |n.kids| + 1
  {
    ShapeOf(n, w.depth, g);
    SwitchShape(n, w.depth, g);
    SwitchWhole(n, st, env, w, k);
    hide LaneCode, Shaped, Run, LaneRun, RunLabels, LaneLabels, KidDepth, KidsChange, KidChanges, Changes, Locals;
    hide Tracks, FinishSwitch, Leave, LeaveLane, NoJump, DistinctLabels, LabelOf, Uniform, UniformFlow, Waits;
    hide KidLocals, LabelsTrack, PastBreak;
    var c, d, exact := Part(t.value, 0), w.depth, UniformFlow(n);
    var st1 := SwitchedIn(n, t.st);
    var r := RunLabels(n, 1, st1, t.st.mask, c, !Uniform(n.kids[0]), env, d, k);
    var own := LaneLabels(n, LabelOf(n, InLane(c, l)), l, t.st.uni, t.st.vars[l], k);
    if Uniform(n.kids[0]) {
      PartIsEven(n, 0, st, env, d, k, g, l);
    }
    if l in st.mask {
      LabelsAgree(n, 1, st1, t.st.mask, c, !Uniform(n.kids[0]), env, d, k, g, l);
    } else {
      WaitsOff(l, st, t.st, KidChanges(n, 0, d));
      LabelsRest(n, 1, st1, t.st.mask, c, !Uniform(n.kids[0]), own, env, d, k, g, l);
    }
    LabelsNeverJump(n, 1, st1, t.st.mask, c, !Uniform(n.kids[0]), env, d, k, g);
    SwitchEnds(l, st, t.st, st1, r, own, exact, KidsChange(n, 1, d), KidChanges(n, 0, d), Locals(n));
  }

  lemma WaitsOff(l: Lane, st: St, st1: St, names: set<string>)
    requires Waits(l, st, st1, names)
    ensures l !in st1.mask
  {
  }
}
