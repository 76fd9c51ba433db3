/** The formatter behind print(): each '%' of the format is replaced by the text of
    the next argument, in a buffer of fixed size.  Texts are C strings: they hold no
    NUL and are read as ending in one. */
module PrintFormat {

  const NUL: char := '\0'
  const RES_STR_SIZE: nat := 8196

  predicate CString(s: string)
  {
    NUL !in s
  }

  function CharAt(s: string, i: nat): char
    requires i <= |s|
  {
    if i < |s| then s[i] else NUL
  }

  // ---------- what should be printed ----------

  function Percents(format: string): nat
  {
    if format == [] then 0 else (if format[0] == '%' then 1 else 0) + Percents(format[1..])
  }

  /** The format with its i-th '%' replaced by the i-th argument, however long. */
  function Interpolated(format: string, args: seq<string>): string
    requires Percents(format) <= |args|
  {
    if format == [] then []
    else if format[0] == '%' then args[0] + Interpolated(format[1..], args[1..])
    else [format[0]] + Interpolated(format[1..], args)
  }

  function Min(a: nat, b: nat): nat
  {
    if a < b then a else b
  }

  function Truncated(s: string, n: nat): string
  {
    s[..Min(|s|, n)]
  }

  // ---------- copying ----------

  /** How far it is from srcIdx to the next separator. */
  function Run(src: string, srcIdx: nat, seps: set<char>): (n: nat)
    requires srcIdx <= |src| && NUL in seps
    ensures srcIdx + n <= |src| && CharAt(src, srcIdx + n) in seps
    ensures forall i :: srcIdx <= i < srcIdx + n ==> src[i] !in seps
    decreases |src| - srcIdx
  {
    if CharAt(src, srcIdx) in seps then 0 else 1 + Run(src, srcIdx + 1, seps)
  }

  method CopyTillSep(src: string, srcIdx: nat, dst: array<char>, dstIdx: nat, leftSpace: nat, seps: set<char>)
    returns (copied: nat)
    requires srcIdx <= |src| && NUL in seps && dstIdx + leftSpace <= dst.Length
    modifies dst
    ensures copied == Min(Run(src, srcIdx, seps), leftSpace)
    ensures dst[..dstIdx + copied] == old(dst[..dstIdx]) + src[srcIdx..srcIdx + copied]
    ensures dst[dstIdx + copied..] == old(dst[dstIdx + copied..])
  {
    var s, d, left := srcIdx, dstIdx, leftSpace;
    while CharAt(src, s) !in seps && left > 0
      invariant srcIdx <= s <= |src| && d - dstIdx == s - srcIdx == leftSpace - left
      invariant dst[..d] == old(dst[..dstIdx]) + src[srcIdx..s]
      invariant dst[d..] == old(dst[d..])
      invariant Run(src, srcIdx, seps) == (s - srcIdx) + Run(src, s, seps)
      decreases left
    {
      dst[d] := src[s];
      d, s := d + 1, s + 1;
      left := left - 1;
    }
    copied := d - dstIdx;
  }

  method CopyPlainText(src: string, srcIdx: nat, dst: array<char>, dstIdx: nat, leftSpace: nat) returns (copied: nat)
    requires srcIdx <= |src| && dstIdx + leftSpace <= dst.Length
    modifies dst
    ensures copied == Min(Run(src, srcIdx, {'%', NUL}), leftSpace)
    ensures dst[..dstIdx + copied] == old(dst[..dstIdx]) + src[srcIdx..srcIdx + copied]
  {
    copied := CopyTillSep(src, srcIdx, dst, dstIdx, leftSpace, {'%', NUL});
  }

  method CopyFullText(src: string, dst: array<char>, dstIdx: nat, leftSpace: nat) returns (copied: nat)
    requires CString(src) && dstIdx + leftSpace <= dst.Length
    modifies dst
    ensures copied == Min(|src|, leftSpace)
    ensures dst[..dstIdx + copied] == old(dst[..dstIdx]) + src[..copied]
  {
    copied := CopyTillSep(src, 0, dst, dstIdx, leftSpace, {NUL});
    assert Run(src, 0, {NUL}) == |src|;
  }

  // ---------- formatting ----------

  lemma {:induction false} PlainText(format: string, args: seq<string>, i: nat, end: nat)
    requires i <= end <= |format| && forall j :: i <= j < end ==> format[j] != '%'
    requires Percents(format[i..]) <= |args|
    ensures Percents(format[i..]) == Percents(format[end..])
    ensures Interpolated(format[i..], args) == format[i..end] + Interpolated(format[end..], args)
    decreases end - i
  {
    if i < end {
      assert format[i..][1..] == format[i + 1..];
      PlainText(format, args, i + 1, end);
      var rest := Interpolated(format[end..], args);
      assert [format[i]] + (format[i + 1..end] + rest) == format[i..end] + rest;
    }
  }

  lemma OnePercent(format: string, args: seq<string>, i: nat)
    requires i < |format| && format[i] == '%' && Percents(format[i..]) <= |args|
    ensures Percents(format[i..]) == 1 + Percents(format[i + 1..])
    ensures Interpolated(format[i..], args) == args[0] + Interpolated(format[i + 1..], args[1..])
  {
    assert format[i..][1..] == format[i + 1..];
  }

  /** `done` is a faithful start of `all`, and if there is space left exactly `rest` is missing. */
  ghost predicate Ongoing(all: string, done: string, rest: string, leftSpace: nat)
  {
    done <= all && (leftSpace > 0 ==> all == done + rest)
  }

  lemma StillOngoing(all: string, done: string, text: string, rest: string, copied: nat, leftSpace: nat)
    requires Ongoing(all, done, text + rest, leftSpace) && copied == Min(|text|, leftSpace)
    ensures Ongoing(all, done + text[..copied], rest, leftSpace - copied)
  {
    if copied < leftSpace {
      assert text[..copied] == text && all == (done + text) + rest;
    } else if leftSpace > 0 {
      assert all == (done + text[..copied]) + (text[copied..] + rest);
      assert leftSpace - copied == 0;
    } else {
      assert done + text[..copied] == done;
    }
  }

  /** `done` has been written for the format up to f and the arguments up to t. */
  ghost predicate Written(format: string, f: nat, args: seq<string>, t: nat, done: string, leftSpace: nat)
  {
    && f <= |format| && t <= |args| && Percents(format) <= |args| && Percents(format[f..]) <= |args| - t
    && Ongoing(Interpolated(format, args), done, Interpolated(format[f..], args[t..]), leftSpace)
  }

  /** Copies up to the next '%', the end of the format or the end of the space. */
  method WritePlain(
    format: string, f: nat, ghost args: seq<string>, ghost t: nat, res: array<char>, written: nat, leftSpace: nat)
    returns (copied: nat)
    requires f <= |format| && written + leftSpace <= res.Length
    requires Written(format, f, args, t, res[..written], leftSpace)
    modifies res
    ensures copied <= leftSpace && f + copied <= |format|
    ensures copied < leftSpace ==> CharAt(format, f + copied) in {'%', NUL}
    ensures Written(format, f + copied, args, t, res[..written + copied], leftSpace - copied)
  {
    hide Written;
    ghost var done := res[..written];
    copied := CopyPlainText(format, f, res, written, leftSpace);
    PlainWritten(format, f, copied, args, t, done, leftSpace);
  }

  lemma PlainWritten(
    format: string, f: nat, copied: nat, args: seq<string>, t: nat, done: string, leftSpace: nat)
    requires Written(format, f, args, t, done, leftSpace)
    requires copied == Min(Run(format, f, {'%', NUL}), leftSpace)
    ensures Written(format, f + copied, args, t, done + format[f..f + copied], leftSpace - copied)
  {
    var n, rest := Run(format, f, {'%', NUL}), args[t..];
    PlainText(format, rest, f, f + n);
    PlainText(format, rest, f, f + copied);
    StillOngoing(Interpolated(format, args), done, format[f..f + n], Interpolated(format[f + n..], rest),
                 copied, leftSpace);
    assert format[f..f + n][..copied] == format[f..f + copied];
  }

  /** Copies the text of the argument that stands for the '%' at f. */
  method WriteArg(
    format: string, f: nat, args: seq<string>, t: nat, res: array<char>, written: nat, leftSpace: nat)
    returns (copied: nat)
    requires f < |format| && format[f] == '%' && written + leftSpace <= res.Length
    requires forall i :: 0 <= i < |args| ==> CString(args[i])
    requires Written(format, f, args, t, res[..written], leftSpace)
    modifies res
    ensures copied <= leftSpace
    ensures Written(format, f + 1, args, t + 1, res[..written + copied], leftSpace - copied)
  {
    OnePercent(format, args[t..], f);
    ghost var done := res[..written];
    var argStr := args[t];
    copied := CopyFullText(argStr, res, written, leftSpace);
    assert args[t..][1..] == args[t + 1..];
    StillOngoing(Interpolated(format, args), done, argStr, Interpolated(format[f + 1..], args[t + 1..]),
                 copied, leftSpace);
  }

  lemma NothingWritten(format: string, args: seq<string>, space: nat)
    requires Percents(format) <= |args|
    ensures Written(format, 0, args, 0, [], space)
  {
    assert format[0..] == format && args[0..] == args;
  }

  lemma AllWritten(format: string, f: nat, args: seq<string>, t: nat, done: string, leftSpace: nat)
    requires Written(format, f, args, t, done, leftSpace) && CString(format)
    requires leftSpace == 0 || CharAt(format, f) == NUL
    ensures done == Truncated(Interpolated(format, args), |done| + leftSpace)
  {
    assert done + [] == done;
  }

  /** The loop over the format; written and left space add up to the same all along. */
  method Fill(format: string, args: seq<string>, res: array<char>, space: nat) returns (haveBeenWritten: nat)
    requires CString(format) && Percents(format) <= |args| && space < res.Length
    requires forall i :: 0 <= i < |args| ==> CString(args[i])
    modifies res
    ensures haveBeenWritten <= space
    ensures res[..haveBeenWritten] == Truncated(Interpolated(format, args), space)
  {
    hide Written, Truncated;
    haveBeenWritten := 0;
    var leftSpace, f: nat, t: nat := space, 0, 0;
    NothingWritten(format, args, space);
    assert res[..0] == [];
    while true
      invariant f <= |format| && haveBeenWritten + leftSpace == space
      invariant Written(format, f, args, t, res[..haveBeenWritten], leftSpace)
      decreases |format| - f
    {
      var wereCopied := WritePlain(format, f, args, t, res, haveBeenWritten, leftSpace);
      f := f + wereCopied;
      haveBeenWritten := haveBeenWritten + wereCopied;
      leftSpace := leftSpace - wereCopied;
      if leftSpace == 0 || CharAt(format, f) == NUL {
        break;
      }
      wereCopied := WriteArg(format, f, args, t, res, haveBeenWritten, leftSpace);
      haveBeenWritten := haveBeenWritten + wereCopied;
      leftSpace := leftSpace - wereCopied;
      f, t := f + 1, t + 1;
    }
    AllWritten(format, f, args, t, res[..haveBeenWritten], leftSpace);
  }

  /** The first size - 1 characters of the interpolation, NUL-terminated. */
  method Format(format: string, args: seq<string>, res: array<char>) returns (haveBeenWritten: nat)
    requires CString(format) && Percents(format) <= |args| && res.Length > 0
    requires forall i :: 0 <= i < |args| ==> CString(args[i])
    modifies res
    ensures haveBeenWritten < res.Length && res[haveBeenWritten] == NUL
    ensures res[..haveBeenWritten] == Truncated(Interpolated(format, args), res.Length - 1)
    ensures CString(res[..haveBeenWritten])
  {
    InterpolationIsCString(format, args);
    haveBeenWritten := Fill(format, args, res, res.Length - 1);
    res[haveBeenWritten] := NUL;
  }

  method GetFormattedStr(format: string, args: seq<string>) returns (res: array<char>)
    requires CString(format) && Percents(format) <= |args|
    requires forall i :: 0 <= i < |args| ==> CString(args[i])
    ensures fresh(res) && res.Length == RES_STR_SIZE
    ensures
      var text := Truncated(Interpolated(format, args), RES_STR_SIZE - 1);
      res[..|text|] == text && res[|text|] == NUL && CString(text)
  {
    res := new char[RES_STR_SIZE];
    var n := Format(format, args, res);
  }

  // ---------- about the interpolation ----------

  lemma {:induction false} InterpolationIsCString(format: string, args: seq<string>)
    requires CString(format) && Percents(format) <= |args|
    requires forall i :: 0 <= i < |args| ==> CString(args[i])
    ensures CString(Interpolated(format, args))
  {
    if format != [] {
      InterpolationIsCString(format[1..], if format[0] == '%' then args[1..] else args);
    }
  }

  /** Interpolating two formats one after the other is interpolating both at once:
      the second starts at the argument after the last one that the first has used. */
  lemma {:induction false} InterpolationAppends(a: string, b: string, args: seq<string>)
    requires Percents(a) + Percents(b) <= |args|
    ensures Percents(a + b) == Percents(a) + Percents(b)
    ensures Interpolated(a + b, args) == Interpolated(a, args) + Interpolated(b, args[Percents(a)..])
  {
    if a == [] {
      assert a + b == b && args[0..] == args;
    } else {
      assert (a + b)[1..] == a[1..] + b;
      if a[0] == '%' {
        InterpolationAppends(a[1..], b, args[1..]);
        assert args[1..][Percents(a[1..])..] == args[Percents(a)..];
      } else {
        InterpolationAppends(a[1..], b, args);
      }
    }
  }
}
