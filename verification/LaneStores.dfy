/** What loads and stores mean for one lane. */
module LaneStores {
  import opened MaskContext
  import opened AllOffSafety
  import opened AllOffRun
  import opened AllOffSoundness
  import opened LaneMeaning

  /** The lane's own numbers of a value. */
  ghost predicate SameValue(value: Value, numbers: seq<int>, l: Lane)
  {
    forall p: nat :: Number(numbers, p) == InLane(Part(value, p), l)
  }

  /** In the uniform parts of v the value of lane l is that of lane 0, which is stored. */
  ghost predicate EvenParts(v: Variable, value: Value, l: Lane)
  {
    forall p: nat :: p < |v.parts| && v.parts[p] ==> InLane(Part(value, p), 0) == InLane(Part(value, p), l)
  }

  function StoredFrom(v: Variable, value: seq<int>, uniform: bool, from: nat): Memory
  {
    map p: nat | from <= p < |v.parts| && v.parts[p] == uniform :: Loc(v.name, p) := Number(value, p)
  }

  lemma ReadsOwn(st: St, v: Variable, l: Lane)
    requires l < |st.vars|
    ensures SameValue(ReadVar(st, v), LaneRead(st.uni, st.vars[l], v), l)
  {
    forall p: nat
      ensures Number(LaneRead(st.uni, st.vars[l], v), p) == InLane(Part(ReadVar(st, v), p), l)
    {
    }
  }

  /** A lane whose value is stored: it is on, or all lanes are written. */
  lemma WritesPart(st: St, v: Variable, p: nat, c: seq<int>, everywhere: bool, x: int, l: Lane)
    requires p < |v.parts| && l < |st.vars| && (l in st.mask || everywhere)
    requires x == InLane(c, l) && (v.parts[p] ==> x == InLane(c, 0))
    ensures
      var st1 := WritePart(st, v, p, c, everywhere);
      st1.uni == st.uni + StoredPart(v, p, x, true) && st1.vars[l] == st.vars[l] + StoredPart(v, p, x, false)
  {
  }

  lemma {:induction false} WritesFrom(
    st: St, v: Variable, value: Value, p: nat, everywhere: bool, numbers: seq<int>, l: Lane)
    requires l < |st.vars| && (l in st.mask || everywhere)
    requires SameValue(value, numbers, l) && EvenParts(v, value, l)
    ensures
      var st1 := WriteParts(st, v, value, p, everywhere);
      && st1.uni == st.uni + StoredFrom(v, numbers, true, p)
      && st1.vars[l] == st.vars[l] + StoredFrom(v, numbers, false, p)
    decreases |v.parts| - p
  {
    if p < |v.parts| {
      var st1 := WritePart(st, v, p, Part(value, p), everywhere);
      WritesPart(st, v, p, Part(value, p), everywhere, Number(numbers, p), l);
      WritesFrom(st1, v, value, p + 1, everywhere, numbers, l);
      forall uniform: bool
        ensures StoredFrom(v, numbers, uniform, p) ==
          StoredPart(v, p, Number(numbers, p), uniform) + StoredFrom(v, numbers, uniform, p + 1)
      {
        FirstStored(v, numbers, uniform, p);
      }
      hide WritePart, WriteParts, StoredFrom, StoredPart;
      AddTwice(st.uni, StoredPart(v, p, Number(numbers, p), true), StoredFrom(v, numbers, true, p + 1));
      AddTwice(st.vars[l], StoredPart(v, p, Number(numbers, p), false), StoredFrom(v, numbers, false, p + 1));
    }
  }

  lemma FirstStored(v: Variable, numbers: seq<int>, uniform: bool, p: nat)
    requires p < |v.parts|
    ensures StoredFrom(v, numbers, uniform, p) ==
      StoredPart(v, p, Number(numbers, p), uniform) + StoredFrom(v, numbers, uniform, p + 1)
  {
  }

  lemma AddTwice(a: Memory, b: Memory, c: Memory)
    ensures a + b + c == a + (b + c)
  {
  }

  lemma WritesAll(st: St, v: Variable, value: Value, everywhere: bool, numbers: seq<int>, l: Lane)
    requires l < |st.vars| && (l in st.mask || everywhere)
    requires SameValue(value, numbers, l) && EvenParts(v, value, l)
    ensures
      var st1 := WriteParts(st, v, value, 0, everywhere);
      st1.uni == st.uni + Stored(v, numbers, true) && st1.vars[l] == st.vars[l] + Stored(v, numbers, false)
  {
    WritesFrom(st, v, value, 0, everywhere, numbers, l);
    AllStored(v, numbers, true);
    AllStored(v, numbers, false);
    hide WriteParts, Stored, StoredFrom, SameValue, EvenParts;
  }

  lemma AllStored(v: Variable, numbers: seq<int>, uniform: bool)
    ensures StoredFrom(v, numbers, uniform, 0) == Stored(v, numbers, uniform)
  {
  }

  lemma {:induction false} Scatters(st: St, v: Variable, indices: seq<int>, c: seq<int>, from: nat, l: Lane)
    requires l < |st.vars| && !HasUniformPart(v)
    ensures
      var st1 := Scatter(st, v, indices, c, from);
      && st1.uni == st.uni
      && (l < from || l !in st.mask || !(0 <= InLane(indices, l) < |v.parts|) ==> st1.vars[l] == st.vars[l])
      && (l >= from && l in st.mask && 0 <= InLane(indices, l) < |v.parts| ==>
            st1.vars[l] == st.vars[l][Loc(v.name, InLane(indices, l)) := InLane(c, l)])
    decreases |st.vars| - from
  {
    if from < |st.vars| {
      if from !in st.mask || !(0 <= InLane(indices, from) < |v.parts|) {
        Scatters(st, v, indices, c, from + 1, l);
      } else {
        assert !v.parts[InLane(indices, from)];
        var lane := st.vars[from][Loc(v.name, InLane(indices, from)) := InLane(c, from)];
        Scatters(st.(vars := st.vars[from := lane]), v, indices, c, from + 1, l);
      }
    }
  }

  /** The value of lane l fits what is stored in uniform parts. */
  ghost predicate EvenStore(lvalue: Node, value: Value, l: Lane)
    requires LValue(lvalue)
  {
    match lvalue.kind
    case Symbol(v) => EvenParts(v, value, l)
    case Member(_, part, _) =>
      Base(lvalue).parts[part] ==> InLane(Part(value, 0), 0) == InLane(Part(value, 0), l)
    case Index(_) => ElementFits(lvalue, InLane(Part(value, 0), 0) == InLane(Part(value, 0), l))
  }

  /** An assignment in a lane that is on. */
  lemma StoresOn(st: St, lvalue: Node, value: Value, d: nat, numbers: seq<int>, l: Lane)
    requires LValue(lvalue) && l in st.mask && l < |st.vars|
    requires SameValue(value, numbers, l) && EvenStore(lvalue, value, l)
    ensures
      var st1 := Store(st, lvalue, value, d);
      && st1.uni == st.uni + Change(lvalue, numbers, true, l)
      && st1.vars[l] == st.vars[l] + Change(lvalue, numbers, false, l)
  {
    var v := Base(lvalue);
    assert Number(numbers, 0) == InLane(Part(value, 0), l);
    hide WritePart, WriteParts, Scatter;
    match lvalue.kind
    case Symbol(_) =>
      WritesAll(st, v, value, Unmasked(v, d), numbers, l);
    case Member(_, part, _) =>
      WritesPart(st, v, part, Part(value, 0), Unmasked(v, d), Number(numbers, 0), l);
    case Index(_) =>
      var vals := lvalue.kids[1].kind.vals;
      if |vals| != 1 {
        Scatters(st, v, Spread(vals, |st.vars|), Part(value, 0), 0, l);
      } else if 0 <= vals[0] < |v.parts| {
        WritesPart(st, v, vals[0], Part(value, 0), Unmasked(v, d), Number(numbers, 0), l);
      }
  }

  function Spilled(lvalue: Node, d: nat): set<string>
    requires LValue(lvalue)
  {
    if Spills(lvalue, d) then {Base(lvalue).name} else {}
  }

  lemma WritesPartOff(st: St, v: Variable, p: nat, c: seq<int>, everywhere: bool, l: Lane)
    requires l < |st.vars| && l !in st.mask && p < |v.parts|
    ensures
      var st1, names := WritePart(st, v, p, c, everywhere), if everywhere || v.parts[p] then {v.name} else {};
      SameOutside(st.uni, st1.uni, names) && SameOutside(st.vars[l], st1.vars[l], names)
  {
  }

  lemma {:induction false} WritesOff(st: St, v: Variable, value: Value, p: nat, everywhere: bool, l: Lane)
    requires l < |st.vars| && l !in st.mask
    ensures
      var st1 := WriteParts(st, v, value, p, everywhere);
      var names := if everywhere || HasUniformPart(v) then {v.name} else {};
      SameOutside(st.uni, st1.uni, names) && SameOutside(st.vars[l], st1.vars[l], names)
    decreases |v.parts| - p
  {
    if p < |v.parts| {
      WritesPartOff(st, v, p, Part(value, p), everywhere, l);
      WritesOff(WritePart(st, v, p, Part(value, p), everywhere), v, value, p + 1, everywhere, l);
      hide WritePart;
    }
  }

  /** An assignment in a lane that is off. */
  lemma StoresOff(st: St, lvalue: Node, value: Value, d: nat, l: Lane)
    requires LValue(lvalue) && l !in st.mask && l < |st.vars|
    requires lvalue.kind.Index? ==> ElementFits(lvalue, true)
    ensures
      var st1 := Store(st, lvalue, value, d);
      && SameOutside(st.uni, st1.uni, Spilled(lvalue, d))
      && SameOutside(st.vars[l], st1.vars[l], Spilled(lvalue, d))
  {
    var v := Base(lvalue);
    hide WritePart, WriteParts, Scatter;
    match lvalue.kind
    case Symbol(_) =>
      WritesOff(st, v, value, 0, Unmasked(v, d), l);
    case Member(_, part, _) =>
      WritesPartOff(st, v, part, Part(value, 0), Unmasked(v, d), l);
    case Index(_) =>
      var vals := lvalue.kids[1].kind.vals;
      if |vals| != 1 {
        Scatters(st, v, Spread(vals, |st.vars|), Part(value, 0), 0, l);
      } else if 0 <= vals[0] < |v.parts| {
        WritesPartOff(st, v, vals[0], Part(value, 0), Unmasked(v, d), l);
        assert v.parts[vals[0]] ==> HasUniformPart(v);
      }
  }

  // ---------- scopes ----------

  lemma OutsideIsAfter(a: Memory, b: Memory, names: set<string>)
    ensures Outside(a, b, names) == After(a, b, names)
  {
  }

  lemma AfterDrops(a: Memory, b: Memory, c: Memory, names: set<string>, locals: set<string>)
    requires SameOutside(b, c, names)
    ensures SameOutside(After(a, b, locals), After(a, c, locals), names - locals)
  {
  }

  lemma SameIsEqual(a: Memory, b: Memory)
    requires SameOutside(a, b, {})
    ensures a == b
  {
  }
}
