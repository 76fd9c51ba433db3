/** A call through a varying function pointer: one masked call for each distinct
    pointer that an active lane holds. */
module VaryingCall {
  import opened Lang
  import opened MaskContext
  import opened EmitContext

  /** What the function behind a pointer does to a lane that is on when it is
      called: to the lane's variables, and the value it returns there. */
  datatype Callees = Callees(effect: (int, Store) -> Store, value: (int, Store) -> int)

  datatype Called = Called(fptr: int, mask: Mask)

  ghost function Holders(full: Mask, func: seq<int>, fptr: int): Mask
  {
    set l: Lane | l in full && l < |func| && func[l] == fptr
  }

  /** Every pointer that a lane of full holds is called once, with exactly the lanes
      that hold it on, and no other pointer is called. */
  ghost predicate OncePerPointer(calls: seq<Called>, full: Mask, func: seq<int>)
  {
    && (forall i :: 0 <= i < |calls| ==> calls[i].mask == Holders(full, func, calls[i].fptr) && calls[i].mask != {})
    && (forall i, j :: 0 <= i < j < |calls| ==> calls[i].fptr != calls[j].fptr)
    && (forall l: Lane :: l in full && l < |func| ==> exists i :: 0 <= i < |calls| && calls[i].fptr == func[l])
  }

  /** Lane l has been through its own function. */
  ghost predicate RanOwn(callees: Callees, fptr: int, was: Store, now: Store, result: int)
  {
    now == callees.effect(fptr, was) && result == callees.value(fptr, was)
  }

  method CountTrailingZeros(m: Mask, width: nat) returns (first: Lane)
    requires m != {} && m <= Gang(width)
    ensures first in m && forall l: Lane :: l in m ==> first <= l
  {
    ghost var some :| some in m;
    first := 0;
    while first !in m
      invariant first <= some && forall l: Lane :: l in m ==> first <= l
      decreases some - first
    {
      first := first + 1;
    }
  }

  /** One call, under the full mask; what it returns in the other lanes is left open. */
  method CallFunction(ctx: FunctionEmitContext, callees: Callees, fptr: int) returns (callResult: seq<int>)
    requires ctx.Valid()
    modifies ctx`vars
    ensures ctx.Valid() && |ctx.vars| == |callResult| == old(|ctx.vars|)
    ensures ctx.Abs() == old(ctx.Abs()).(vars := ctx.vars)
    ensures forall l: Lane :: l < |ctx.vars| ==>
        if l in FullMask(old(ctx.Abs())) then RanOwn(callees, fptr, old(ctx.vars)[l], ctx.vars[l], callResult[l])
        else ctx.vars[l] == old(ctx.vars)[l]
  {
    hide LinksOK, AbsStack;
    var m := ctx.GetFullMask();
    var was := ctx.vars;
    callResult := seq(|was|, l requires 0 <= l < |was| => callees.value(fptr, was[l]));
    ctx.vars := seq(|was|, l requires 0 <= l < |was| => if l in m then callees.effect(fptr, was[l]) else was[l]);
  }

  function MaskedStore(values: seq<int>, memory: seq<int>, m: Mask): (r: seq<int>)
    requires |values| == |memory|
  {
    seq(|memory|, l requires 0 <= l < |memory| => if l in m then values[l] else memory[l])
  }

  /** Where the calls have got to: the lanes that are not pending have been through
      their own function, the others have not been touched. */
  ghost predicate SoFar(
    callees: Callees, func: seq<int>, full: Mask, pending: Mask,
    was: seq<Store>, memory: seq<int>, vars: seq<Store>, results: seq<int>)
    requires |func| == |was| == |memory| == |vars| == |results|
  {
    forall l: Lane :: l < |was| ==>
      if l in full && l !in pending then RanOwn(callees, func[l], was[l], vars[l], results[l])
      else vars[l] == was[l] && results[l] == memory[l]
  }

  /** Which pointers have been called: those of the lanes that are not pending. */
  ghost predicate CalledSoFar(calls: seq<Called>, full: Mask, pending: Mask, func: seq<int>)
  {
    && OncePerPointer(calls, full - pending, func)
    && forall l, l1: Lane :: l in full - pending && l1 in pending && l < |func| && l1 < |func| ==> func[l] != func[l1]
  }

  /** `memory` is what the result memory happens to hold when it is allocated. */
  method CallVarying(ctx: FunctionEmitContext, func: seq<int>, callees: Callees, memory: seq<int>)
    returns (results: seq<int>, calls: seq<Called>)
    requires ctx.Valid() && |func| == |ctx.vars| == |memory|
    modifies ctx
    ensures ctx.Valid() && |results| == |ctx.vars| == |func|
    ensures ctx.Abs() == old(ctx.Abs()).(vars := ctx.vars)
    ensures forall l: Lane :: l < |func| ==>
        if l in FullMask(old(ctx.Abs())) then RanOwn(callees, func[l], old(ctx.vars)[l], ctx.vars[l], results[l])
        else ctx.vars[l] == old(ctx.vars)[l] && results[l] == memory[l]
    ensures OncePerPointer(calls, FullMask(old(ctx.Abs())), func)
  {
    hide FunctionEmitContext.Valid, AbsStack, RanOwn, OncePerPointer;
    ghost var c := ctx.Abs();
    ghost var was := ctx.vars;
    var origMask := ctx.internalMask;
    results, calls := memory, [];
    var full := ctx.GetFullMask();
    var pending := full;
    MasksFit(ctx);
    NothingCalled(full, func);
    while pending != {}
      invariant ctx.Valid() && |ctx.vars| == |results| == |func| == |was|
      invariant ctx.Abs() == c.(internal := ctx.internalMask, vars := ctx.vars)
      invariant pending <= full <= c.functionMask && full <= Gang(|func|)
      invariant SoFar(callees, func, full, pending, was, memory, ctx.vars, results)
      invariant CalledSoFar(calls, full, pending, func)
      decreases pending
    {
      ghost var vars0, results0 := ctx.vars, results;
      var firstLane := CountTrailingZeros(pending, |func|);
      var fptr := func[firstLane];
      var fpOverlap := set l: Lane | l < |func| && func[l] == fptr;
      var callMask := pending * fpOverlap;
      ctx.SetInternalMask(callMask);
      var callResult := CallFunction(ctx, callees, fptr);
      results := MaskedStore(callResult, results, callMask);
      assert FullMask(c.(internal := callMask)) == callMask;
      StillSoFar(callees, func, full, pending, callMask, fptr, was, memory, vars0, results0, ctx.vars, results);
      OneMoreCalled(calls, full, pending, func, callMask, fptr);
      assert firstLane in callMask;
      calls := calls + [Called(fptr, callMask)];
      pending := pending * (Gang(|func|) - callMask);
    }
    assert full - pending == full;
    MasksFit(ctx);
    ctx.SetInternalMask(origMask);
  }

  lemma MasksFit(ctx: FunctionEmitContext)
    requires ctx.Valid()
    ensures ctx.internalMask <= Gang(|ctx.vars|)
  {
  }

  lemma NothingCalled(full: Mask, func: seq<int>)
    ensures CalledSoFar([], full, full, func)
  {
  }

  lemma StillSoFar(
    callees: Callees, func: seq<int>, full: Mask, pending: Mask, callMask: Mask, fptr: int,
    was: seq<Store>, memory: seq<int>, vars: seq<Store>, results: seq<int>, vars1: seq<Store>, results1: seq<int>)
    requires |func| == |was| == |memory| == |vars| == |results| == |vars1| == |results1|
    requires SoFar(callees, func, full, pending, was, memory, vars, results)
    requires pending <= full <= Gang(|func|) && callMask <= pending
    requires forall l: Lane :: l in callMask ==> l < |func| && func[l] == fptr
    requires forall l: Lane :: l < |func| ==>
        if l in callMask then RanOwn(callees, fptr, vars[l], vars1[l], results1[l])
        else vars1[l] == vars[l] && results1[l] == results[l]
    ensures SoFar(callees, func, full, pending * (Gang(|func|) - callMask), was, memory, vars1, results1)
  {
    hide RanOwn;
  }

  lemma OneMoreCalled(calls: seq<Called>, full: Mask, pending: Mask, func: seq<int>, callMask: Mask, fptr: int)
    requires CalledSoFar(calls, full, pending, func) && pending <= full <= Gang(|func|)
    requires callMask == Holders(pending, func, fptr) && callMask != {}
    ensures CalledSoFar(calls + [Called(fptr, callMask)], full, pending * (Gang(|func|) - callMask), func)
  {
    var calls1, pending1 := calls + [Called(fptr, callMask)], pending * (Gang(|func|) - callMask);
    assert full - pending1 == (full - pending) + callMask;
    var holder :| holder in callMask;
    forall i | 0 <= i < |calls|
      ensures calls[i].fptr != fptr && calls[i].mask == Holders(full - pending1, func, calls[i].fptr)
    {
      var l :| l in calls[i].mask;
      assert func[l] != func[holder];
      assert Holders(full - pending, func, calls[i].fptr) == Holders(full - pending1, func, calls[i].fptr);
    }
    assert Holders(full - pending1, func, fptr) == callMask;
    forall l: Lane | l in full - pending1
      ensures exists i :: 0 <= i < |calls1| && calls1[i].fptr == func[l]
    {
      if l in callMask {
        assert calls1[|calls|].fptr == func[l];
      } else {
        var i :| 0 <= i < |calls| && calls[i].fptr == func[l];
        assert calls1[i].fptr == func[l];
      }
    }
  }

  // ---------- consequences ----------

  /** Every active lane is on in exactly one call, the call of its own function. */
  lemma EachLaneOnce(calls: seq<Called>, full: Mask, func: seq<int>, l: Lane)
    requires OncePerPointer(calls, full, func) && full <= Gang(|func|)
    ensures l in full <==> exists i :: 0 <= i < |calls| && l in calls[i].mask
    ensures forall i, j :: 0 <= i < |calls| && 0 <= j < |calls| && l in calls[i].mask && l in calls[j].mask ==>
        i == j && calls[i].fptr == func[l]
  {
    if l in full {
      var i :| 0 <= i < |calls| && calls[i].fptr == func[l];
      assert l in calls[i].mask;
    }
  }

  ghost function Pointers(full: Mask, func: seq<int>): set<int>
  {
    set l: Lane | l in full && l < |func| :: func[l]
  }

  /** There are as many calls as there are distinct pointers among the active lanes. */
  lemma {:induction false} OneCallPerPointer(calls: seq<Called>, full: Mask, func: seq<int>)
    requires OncePerPointer(calls, full, func) && full <= Gang(|func|)
    ensures |calls| == |Pointers(full, func)|
  {
    var called := set i | 0 <= i < |calls| :: calls[i].fptr;
    forall p
      ensures p in called <==> p in Pointers(full, func)
    {
      if p in called {
        var i :| 0 <= i < |calls| && calls[i].fptr == p;
        var l :| l in calls[i].mask;
        assert l in Holders(full, func, p);
      }
    }
    assert called == Pointers(full, func);
    DistinctCount(calls);
  }

  lemma {:induction false} DistinctCount(calls: seq<Called>)
    requires forall i, j :: 0 <= i < j < |calls| ==> calls[i].fptr != calls[j].fptr
    ensures |set i | 0 <= i < |calls| :: calls[i].fptr| == |calls|
  {
    if calls != [] {
      var n := |calls| - 1;
      DistinctCount(calls[..n]);
      var rest := set i | 0 <= i < n :: calls[..n][i].fptr;
      assert (set i | 0 <= i < |calls| :: calls[i].fptr) == rest + {calls[n].fptr};
    }
  }
}
