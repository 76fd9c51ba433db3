/** Indexing through a pointer into an array of soa<> structures: the index is
    split by a shift and a mask into a structure and a slice of it.  Integers are
    two's complement of a given width; the bit operations are defined bit by bit. */
module SliceIndex {

  function Pow2(n: nat): (p: nat)
    ensures p > 0
  {
    if n == 0 then 1 else 2 * Pow2(n - 1)
  }

  predicate InRange(x: int, width: nat)
    requires width > 0
  {
    0 - Pow2(width - 1) <= x < Pow2(width - 1)
  }

  /** What is left of x in an integer register of this width. */
  function Wrap(x: int, width: nat): (r: int)
    requires width > 0
    ensures InRange(r, width)
  {
    var low := x % Pow2(width);
    assert Pow2(width) == 2 * Pow2(width - 1);
    if low < Pow2(width - 1) then low else low - Pow2(width)
  }

  /** The and of the lowest n bits of two's complement numbers. */
  function BitAnd(x: int, y: int, n: nat): int
    decreases n
  {
    if n == 0 then 0 else 2 * BitAnd(x / 2, y / 2, n - 1) + (if x % 2 == 1 && y % 2 == 1 then 1 else 0)
  }

  /** A shift right by one copies the sign, that is, it halves and rounds down. */
  function ArithmeticShiftRight(x: int, n: nat): int
    decreases n
  {
    if n == 0 then x else ArithmeticShiftRight(x / 2, n - 1)
  }

  lemma {:induction false} MaskIsRemainder(x: int, log: nat, n: nat)
    requires log <= n
    ensures BitAnd(x, Pow2(log) - 1, n) == x % Pow2(log)
    decreases n
  {
    if log == 0 {
      AndZero(x, n);
    } else {
      MaskIsRemainder(x / 2, log - 1, n - 1);
      assert (Pow2(log) - 1) / 2 == Pow2(log - 1) - 1;
      HalveRemainder(x, Pow2(log - 1));
    }
  }

  lemma {:induction false} AndZero(x: int, n: nat)
    ensures BitAnd(x, 0, n) == 0
    decreases n
  {
    if n > 0 {
      AndZero(x / 2, n - 1);
    }
  }

  lemma HalveRemainder(x: int, p: nat)
    requires p > 0
    ensures x % (2 * p) == 2 * ((x / 2) % p) + x % 2
    ensures x / (2 * p) == (x / 2) / p
  {
    var q, r := (x / 2) / p, (x / 2) % p;
    assert x == (2 * p) * q + (2 * r + x % 2);
    DivisionIsUnique(x, 2 * p, q, 2 * r + x % 2);
  }

  lemma DivisionIsUnique(x: int, d: nat, q: int, r: int)
    requires d > 0 && 0 <= r < d && x == d * q + r
    ensures x / d == q && x % d == r
  {
    var q1, r1 := x / d, x % d;
    assert x == d * q1 + r1;
    if q1 < q {
      MultipleGrows(d, q1, q);
    } else if q < q1 {
      MultipleGrows(d, q, q1);
    }
  }

  lemma DivisionSplits(x: int, d: nat)
    requires d > 0
    ensures (x / d) * d + x % d == x && 0 <= x % d < d
  {
  }

  lemma MultipleGrows(d: nat, a: int, b: int)
    requires a < b
    ensures d * a + d <= d * b
  {
    assert d * b == d * a + d * (b - a) && d * (b - a) == d + d * (b - a - 1);
  }

  lemma {:induction false} ShiftIsDivision(x: int, log: nat)
    ensures ArithmeticShiftRight(x, log) == x / Pow2(log)
    decreases log
  {
    if log > 0 {
      ShiftIsDivision(x / 2, log - 1);
      HalveRemainder(x, Pow2(log - 1));
    }
  }

  /** The loop that takes the logarithm: `exact` is the assertion that follows it, and
      it holds for the powers of two and nothing else. */
  method LogWidth(soaWidth: nat) returns (logWidth: nat, exact: bool)
    requires soaWidth > 0
    ensures Pow2(logWidth) <= soaWidth < 2 * Pow2(logWidth)
    ensures exact <==> soaWidth == Pow2(logWidth)
    ensures exact <==> exists n: nat :: soaWidth == Pow2(n)
  {
    logWidth := 0;
    var sw := soaWidth;
    while sw > 1
      invariant sw >= 1
      invariant sw * Pow2(logWidth) <= soaWidth < (sw + 1) * Pow2(logWidth)
    {
      HalvingKeepsBounds(soaWidth, sw, Pow2(logWidth));
      logWidth := logWidth + 1;
      sw := sw / 2;
    }
    exact := Pow2(logWidth) == soaWidth;
    forall n: nat | soaWidth == Pow2(n)
      ensures exact
    {
      LogIsUnique(n, logWidth, soaWidth);
    }
  }

  lemma HalvingKeepsBounds(w: nat, sw: nat, p: nat)
    requires sw * p <= w < (sw + 1) * p
    ensures (sw / 2) * (2 * p) <= w < (sw / 2 + 1) * (2 * p)
  {
    var h := sw / 2;
    assert 2 * h <= sw <= 2 * h + 1;
    assert h * (2 * p) == (2 * h) * p && (h + 1) * (2 * p) == (2 * h + 2) * p;
    assert (2 * h) * p <= sw * p && (sw + 1) * p <= (2 * h + 2) * p;
  }

  lemma {:induction false} PowersGrow(m: nat, n: nat)
    requires m <= n
    ensures Pow2(m) <= Pow2(n)
    ensures m < n ==> 2 * Pow2(m) <= Pow2(n)
    decreases n - m
  {
    if m < n {
      PowersGrow(m + 1, n);
    }
  }

  lemma LogIsUnique(n: nat, log: nat, w: nat)
    requires w == Pow2(n) && Pow2(log) <= w < 2 * Pow2(log)
    ensures n == log
  {
    if n < log {
      PowersGrow(n, log);
    } else {
      PowersGrow(log, n);
    }
  }

  /** The structure and the slice that an index reaches from a slice offset. */
  method ComputeSliceIndex(soaWidth: nat, index: int, sliceOffset: int, width: nat)
    returns (major: int, minor: int)
    requires soaWidth > 0 && exists n: nat :: n < width && soaWidth == Pow2(n)  // asserted in the code
    ensures major * soaWidth + minor == Wrap(index + sliceOffset, width)
    ensures 0 <= minor < soaWidth
    ensures major == Major(soaWidth, index, sliceOffset, width)
    ensures minor == Minor(soaWidth, index, sliceOffset, width)
  {
    hide Wrap, InRange, BitAnd, ArithmeticShiftRight;
    var logWidth, exact := LogWidth(soaWidth);
    ghost var n: nat :| n < width && soaWidth == Pow2(n);
    LogIsUnique(n, logWidth, soaWidth);
    var indexSum := Wrap(index + sliceOffset, width);
    minor := BitAnd(indexSum, soaWidth - 1, width);
    major := ArithmeticShiftRight(indexSum, logWidth);
    assert minor == indexSum % soaWidth by {
      MaskIsRemainder(indexSum, logWidth, width);
    }
    assert major == indexSum / soaWidth by {
      ShiftIsDivision(indexSum, logWidth);
    }
    DivisionSplits(indexSum, soaWidth);
  }

  function Major(soaWidth: nat, index: int, sliceOffset: int, width: nat): int
    requires soaWidth > 0 && width > 0
  {
    Wrap(index + sliceOffset, width) / soaWidth
  }

  function Minor(soaWidth: nat, index: int, sliceOffset: int, width: nat): int
    requires soaWidth > 0 && width > 0
  {
    Wrap(index + sliceOffset, width) % soaWidth
  }

  /** The split is exact if and only if the sum of index and offset does not overflow. */
  lemma ExactIffNoOverflow(soaWidth: nat, index: int, sliceOffset: int, width: nat)
    requires soaWidth > 0 && width > 0
    ensures
      Major(soaWidth, index, sliceOffset, width) * soaWidth + Minor(soaWidth, index, sliceOffset, width)
        == index + sliceOffset
      <==> InRange(index + sliceOffset, width)
  {
    var sum := index + sliceOffset;
    if InRange(sum, width) {
      WrapInRange(sum, width);
    }
  }

  lemma WrapInRange(x: int, width: nat)
    requires width > 0 && InRange(x, width)
    ensures Wrap(x, width) == x
  {
    var p := Pow2(width);
    assert p == 2 * Pow2(width - 1);
    if x >= 0 {
      DivisionIsUnique(x, p, 0, x);
    } else {
      DivisionIsUnique(x, p, -1, x + p);
    }
  }

  // ---------- slice pointers ----------

  /** A pointer to a structure, counted in structures, and a slice of it.  A frozen
      slice pointer keeps its slice. */
  datatype SlicePointer = SlicePointer(base: int, offset: int, frozen: bool)

  method GetElementPtr(p: SlicePointer, index: int, soaWidth: nat, width: nat) returns (r: SlicePointer)
    requires soaWidth > 0 && exists n: nat :: n < width && soaWidth == Pow2(n)
    ensures r == Indexed(p, index, soaWidth, width)
  {
    var i, ptrSliceOffset := index, p.offset;
    if !p.frozen {
      i, ptrSliceOffset := ComputeSliceIndex(soaWidth, index, ptrSliceOffset, width);
    }
    r := SlicePointer(p.base + i, ptrSliceOffset, p.frozen);
  }

  function Indexed(p: SlicePointer, index: int, soaWidth: nat, width: nat): SlicePointer
    requires soaWidth > 0 && width > 0
  {
    if p.frozen then p.(base := p.base + index)
    else p.(base := p.base + Major(soaWidth, index, p.offset, width), offset := Minor(soaWidth, index, p.offset, width))
  }

  /** The number of the element a slice pointer points to. */
  function Element(p: SlicePointer, soaWidth: nat): int
  {
    p.base * soaWidth + p.offset
  }

  /** Indexing moves by exactly that many elements, also backwards, and leaves the
      slice in range; a frozen pointer moves by whole structures. */
  lemma IndexingMoves(p: SlicePointer, index: int, soaWidth: nat, width: nat)
    requires soaWidth > 0 && width > 0 && InRange(index + p.offset, width)
    ensures
      var r := Indexed(p, index, soaWidth, width);
      Element(r, soaWidth) == Element(p, soaWidth) + (if p.frozen then index * soaWidth else index)
      && (if p.frozen then r.offset == p.offset else 0 <= r.offset < soaWidth)
  {
    WrapInRange(index + p.offset, width);
    var sum := index + p.offset;
    if p.frozen {
      assert (p.base + index) * soaWidth == p.base * soaWidth + index * soaWidth;
    } else {
      assert (p.base + sum / soaWidth) * soaWidth == p.base * soaWidth + (sum / soaWidth) * soaWidth;
    }
  }

  lemma ElementIsUnique(p: SlicePointer, q: SlicePointer, soaWidth: nat)
    requires soaWidth > 0 && 0 <= p.offset < soaWidth && 0 <= q.offset < soaWidth && p.frozen == q.frozen
    requires Element(p, soaWidth) == Element(q, soaWidth)
    ensures p == q
  {
    DivisionIsUnique(Element(p, soaWidth), soaWidth, p.base, p.offset);
    DivisionIsUnique(Element(q, soaWidth), soaWidth, q.base, q.offset);
  }

  /** Indexing is an action of the integers: by i and then by j is by i + j, and by 0
      stays put. */
  lemma IndexingComposes(p: SlicePointer, i: int, j: int, soaWidth: nat, width: nat)
    requires soaWidth > 0 && width > 0 && (p.frozen || 0 <= p.offset < soaWidth)
    requires InRange(i + p.offset, width) && InRange(i + j + p.offset, width)
    requires InRange(j + Indexed(p, i, soaWidth, width).offset, width) && InRange(p.offset, width)
    ensures Indexed(Indexed(p, i, soaWidth, width), j, soaWidth, width) == Indexed(p, i + j, soaWidth, width)
    ensures Indexed(p, 0, soaWidth, width) == p
  {
    if !p.frozen {
      var q := Indexed(p, i, soaWidth, width);
      IndexingMoves(p, i, soaWidth, width);
      IndexingMoves(q, j, soaWidth, width);
      IndexingMoves(p, i + j, soaWidth, width);
      IndexingMoves(p, 0, soaWidth, width);
      ElementIsUnique(Indexed(q, j, soaWidth, width), Indexed(p, i + j, soaWidth, width), soaWidth);
      ElementIsUnique(Indexed(p, 0, soaWidth, width), p, soaWidth);
    }
  }
}
