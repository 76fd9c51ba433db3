/** Breaking text into arguments, with quotes, and expanding @file arguments in place. */
module ArgSplitting {
  import opened MaskContext

  const NUL: char := '\0'
  const DQ: char := '\"'
  const SQ: char := '\''

  predicate IsSpace(c: char)
  {
    c in {' ', '\t', '\n', '\r', '\U{0B}', '\U{0C}'}
  }

  // ---------- what the next argument is ----------

  function SkipSpaces(s: string): (r: string)
    ensures |r| <= |s| && (r == [] || !IsSpace(r[0]))
  {
    if s != [] && IsSpace(s[0]) then SkipSpaces(s[1..]) else s
  }

  /** The argument that s starts with, up to a space outside quotes or a NUL, and what
      follows that. */
  function Collect(s: string, insideDQ: bool, insideSQ: bool): (r: (string, string))
    ensures |r.1| <= |s| && (s != [] ==> |r.1| < |s|)
  {
    if s == [] then ("", [])
    else if s[0] == NUL || (IsSpace(s[0]) && !insideDQ && !insideSQ) then ("", s[1..])
    else if s[0] == DQ && !insideSQ then Collect(s[1..], !insideDQ, insideSQ)
    else if s[0] == SQ && !insideDQ then Collect(s[1..], insideDQ, !insideSQ)
    else var r := Collect(s[1..], insideDQ, insideSQ); ([s[0]] + r.0, r.1)
  }

  /** What collecting s after `text` has been collected gives. */
  function Onward(text: string, s: string, insideDQ: bool, insideSQ: bool): (string, string)
  {
    var r := Collect(s, insideDQ, insideSQ);
    (text + r.0, r.1)
  }

  lemma OnwardStep(text: string, s: string, insideDQ: bool, insideSQ: bool)
    requires s != [] && s[0] != NUL && !(IsSpace(s[0]) && !insideDQ && !insideSQ)
    ensures Onward(text, s, insideDQ, insideSQ) ==
        if s[0] == DQ && !insideSQ then Onward(text, s[1..], !insideDQ, insideSQ)
        else if s[0] == SQ && !insideDQ then Onward(text, s[1..], insideDQ, !insideSQ)
        else Onward(text + [s[0]], s[1..], insideDQ, insideSQ)
  {
    var r := Collect(s[1..], insideDQ, insideSQ);
    assert text + ([s[0]] + r.0) == (text + [s[0]]) + r.0;
  }

  lemma OnwardEnds(text: string, s: string, insideDQ: bool, insideSQ: bool)
    requires s == [] || s[0] == NUL || (IsSpace(s[0]) && !insideDQ && !insideSQ)
    ensures Onward(text, s, insideDQ, insideSQ) == (text, if s == [] then [] else s[1..])
  {
    assert text + [] == text;
  }

  lemma SkipStep(s: string)
    ensures SkipSpaces(s) == if s != [] && IsSpace(s[0]) then SkipSpaces(s[1..]) else s
  {
  }

  lemma OnwardFromNothing(s: string, insideDQ: bool, insideSQ: bool)
    ensures Onward([], s, insideDQ, insideSQ) == Collect(s, insideDQ, insideSQ)
  {
    assert [] + Collect(s, insideDQ, insideSQ).0 == Collect(s, insideDQ, insideSQ).0;
  }

  function NextArg(s: string): (r: (Option<string>, string))
    ensures r.0.Some? ==> |r.1| < |s|
  {
    var t := SkipSpaces(s);
    if t == [] then (None, [])
    else if t[0] == NUL then (None, t[1..])
    else var r := Collect(t, false, false); (Some(r.0), r.1)
  }

  /** All the arguments of a text. */
  function Split(s: string): seq<string>
    decreases |s|
  {
    var r := NextArg(s);
    if r.0.None? then [] else [r.0.value] + Split(r.1)
  }

  // ---------- how it is found ----------

  /** A character source, the contents of a file or a NUL-free string, and its cursor. */
  class ArgFactory {
    const data: string
    var pos: nat

    ghost predicate Valid()
      reads this
    {
      pos <= |data|
    }

    constructor (data: string)
      ensures Valid() && this.data == data && pos == 0
    {
      this.data, pos := data, 0;
    }

    method GetNextChar() returns (c: char)
      requires Valid()
      modifies this`pos
      ensures Valid() && c == (if old(pos) < |data| then data[old(pos)] else NUL)
      ensures pos == if old(pos) < |data| then old(pos) + 1 else old(pos)
    {
      if pos == |data| {
        return NUL;
      }
      c := data[pos];
      pos := pos + 1;
    }

    method GetNextArg() returns (arg: Option<string>)
      requires Valid()
      modifies this`pos
      ensures Valid() && (arg, data[pos..]) == NextArg(old(data[pos..]))
      ensures arg.Some? ==> pos > old(pos)
    {
      hide Collect, SkipSpaces;
      var c := GetNextChar();
      ghost var at := old(pos);  // where c stands
      SkipStep(data[at..]);
      while IsSpace(c)
        invariant At(at, c) && at >= old(pos)
        invariant SkipSpaces(data[at..]) == SkipSpaces(old(data[pos..]))
        decreases |data| - at
      {
        SkipStep(data[at..]);
        at := at + 1;
        c := GetNextChar();
      }
      SkipStep(data[at..]);
      if c == NUL {
        return None;
      }
      var text := CollectArg(c, at);
      return Some(text);
    }

    /** c, the character just read, stands at position `at`, or at the end. */
    ghost predicate At(at: nat, c: char)
      reads this
    {
      && at <= |data| && c == (if at < |data| then data[at] else NUL)
      && pos == if at < |data| then at + 1 else at
    }

    /** The rest of an argument whose first character c has been read. */
    method CollectArg(first: char, ghost start: nat) returns (text: string)
      requires At(start, first) && first != NUL && !IsSpace(first)
      modifies this`pos
      ensures Valid() && pos >= old(pos) && (text, data[pos..]) == Collect(data[start..], false, false)
    {
      hide Collect, Onward;
      var insideDQ, insideSQ, c := false, false, first;
      ghost var at := start;
      text := [];
      while c != NUL && !(IsSpace(c) && !insideDQ && !insideSQ)
        invariant At(at, c) && pos >= old(pos)
        invariant Onward([], data[start..], false, false) == Onward(text, data[at..], insideDQ, insideSQ)
        decreases |data| - at
      {
        OnwardStep(text, data[at..], insideDQ, insideSQ);
        at := at + 1;
        if c == DQ && !insideSQ {
          c := GetNextChar();
          insideDQ := !insideDQ;
        } else if c == SQ && !insideDQ {
          c := GetNextChar();
          insideSQ := !insideSQ;
        } else {
          text := text + [c];
          c := GetNextChar();
        }
      }
      OnwardEnds(text, data[at..], insideDQ, insideSQ);
      OnwardFromNothing(data[start..], false, false);
    }
  }

  // ---------- splitting undoes quoting ----------

  /** A stretch of an argument as it is written. */
  datatype Piece = Plain(text: string) | DoubleQuoted(text: string) | SingleQuoted(text: string)

  predicate PieceOK(p: Piece)
  {
    match p
    case Plain(t) => forall i :: 0 <= i < |t| ==> !IsSpace(t[i]) && t[i] != DQ && t[i] != SQ && t[i] != NUL
    case DoubleQuoted(t) => forall i :: 0 <= i < |t| ==> t[i] != DQ && t[i] != NUL
    case SingleQuoted(t) => forall i :: 0 <= i < |t| ==> t[i] != SQ && t[i] != NUL
  }

  function Written(p: Piece): string
  {
    match p
    case Plain(t) => t
    case DoubleQuoted(t) => [DQ] + t + [DQ]
    case SingleQuoted(t) => [SQ] + t + [SQ]
  }

  type Word = seq<Piece>

  function WrittenWord(w: Word): string
  {
    if w == [] then [] else Written(w[0]) + WrittenWord(w[1..])
  }

  /** The argument that a word stands for. */
  function Meaning(w: Word): string
  {
    if w == [] then [] else w[0].text + Meaning(w[1..])
  }

  predicate WordOK(w: Word)
  {
    (forall i :: 0 <= i < |w| ==> PieceOK(w[i])) && WrittenWord(w) != []
  }

  predicate AllSpace(s: string)
  {
    forall i :: 0 <= i < |s| ==> IsSpace(s[i])
  }

  /** Words laid out with gaps before, between and after them. */
  function Layout(words: seq<Word>, gaps: seq<string>): string
    requires |gaps| == |words| + 1
  {
    if words == [] then gaps[0] else gaps[0] + WrittenWord(words[0]) + Layout(words[1..], gaps[1..])
  }

  predicate GapsOK(words: seq<Word>, gaps: seq<string>)
    requires |gaps| == |words| + 1
  {
    && (forall i :: 0 <= i < |gaps| ==> AllSpace(gaps[i]))
    && (forall i :: 1 <= i < |words| ==> gaps[i] != [])
  }

  function Meanings(words: seq<Word>): seq<string>
  {
    if words == [] then [] else [Meaning(words[0])] + Meanings(words[1..])
  }

  lemma {:induction false} OnwardText(text: string, t: string, rest: string, insideDQ: bool, insideSQ: bool)
    requires !(insideDQ && insideSQ)
    requires forall i :: 0 <= i < |t| ==>
        t[i] != NUL && if insideDQ then t[i] != DQ else if insideSQ then t[i] != SQ
        else !IsSpace(t[i]) && t[i] != DQ && t[i] != SQ
    ensures Onward(text, t + rest, insideDQ, insideSQ) == Onward(text + t, rest, insideDQ, insideSQ)
    decreases |t|
  {
    hide Onward;
    if t == [] {
      assert t + rest == rest && text + t == text;
    } else {
      assert (t + rest)[1..] == t[1..] + rest;
      OnwardStep(text, t + rest, insideDQ, insideSQ);
      OnwardText(text + [t[0]], t[1..], rest, insideDQ, insideSQ);
      assert text + [t[0]] + t[1..] == text + t;
    }
  }

  lemma {:induction false} OnwardPiece(text: string, p: Piece, rest: string)
    requires PieceOK(p)
    ensures Onward(text, Written(p) + rest, false, false) == Onward(text + p.text, rest, false, false)
  {
    hide Onward;
    match p {
      case Plain(t) => OnwardText(text, t, rest, false, false);
      case DoubleQuoted(t) =>
        OnwardStep(text, Written(p) + rest, false, false);
        assert (Written(p) + rest)[1..] == t + ([DQ] + rest);
        OnwardText(text, t, [DQ] + rest, true, false);
        OnwardStep(text + t, [DQ] + rest, true, false);
        assert ([DQ] + rest)[1..] == rest;
      case SingleQuoted(t) =>
        OnwardStep(text, Written(p) + rest, false, false);
        assert (Written(p) + rest)[1..] == t + ([SQ] + rest);
        OnwardText(text, t, [SQ] + rest, false, true);
        OnwardStep(text + t, [SQ] + rest, false, true);
        assert ([SQ] + rest)[1..] == rest;
    }
  }

  lemma {:induction false} OnwardWord(text: string, w: Word, rest: string)
    requires forall i :: 0 <= i < |w| ==> PieceOK(w[i])
    ensures Onward(text, WrittenWord(w) + rest, false, false) == Onward(text + Meaning(w), rest, false, false)
    decreases |w|
  {
    hide Onward;
    if w == [] {
      assert WrittenWord(w) + rest == rest && text + Meaning(w) == text;
    } else {
      var tail := WrittenWord(w[1..]) + rest;
      assert WrittenWord(w) + rest == Written(w[0]) + tail;
      OnwardPiece(text, w[0], tail);
      OnwardWord(text + w[0].text, w[1..], rest);
      assert text + w[0].text + Meaning(w[1..]) == text + Meaning(w);
    }
  }

  lemma {:induction false} SkipGap(gap: string, rest: string)
    requires AllSpace(gap)
    ensures SkipSpaces(gap + rest) == SkipSpaces(rest)
  {
    if gap == [] {
      assert gap + rest == rest;
    } else {
      assert (gap + rest)[1..] == gap[1..] + rest;
      SkipGap(gap[1..], rest);
    }
  }

  lemma {:induction false} WordStart(w: Word, rest: string)
    requires WordOK(w)
    ensures var s := WrittenWord(w) + rest; SkipSpaces(s) == s && s[0] != NUL
  {
    if Written(w[0]) == [] {
      assert WrittenWord(w) == WrittenWord(w[1..]);
      WordStart(w[1..], rest);
    } else {
      assert (WrittenWord(w) + rest)[0] == Written(w[0])[0];
    }
  }

  /** However a list of arguments is quoted and spaced, splitting gives it back. */
  lemma {:induction false} SplitUndoesQuoting(words: seq<Word>, gaps: seq<string>)
    requires |gaps| == |words| + 1 && GapsOK(words, gaps)
    requires forall i :: 0 <= i < |words| ==> WordOK(words[i])
    ensures Split(Layout(words, gaps)) == Meanings(words)
    decreases |words|
  {
    if words == [] {
      SkipGap(gaps[0], []);
      assert gaps[0] + [] == gaps[0];
    } else {
      FirstWord(words, gaps);
      SplitUndoesQuoting(words[1..], gaps[1..]);
    }
  }

  lemma {:induction false} FirstWord(words: seq<Word>, gaps: seq<string>)
    requires |gaps| == |words| + 1 && GapsOK(words, gaps) && words != [] && WordOK(words[0])
    ensures Split(Layout(words, gaps)) == [Meaning(words[0])] + Split(Layout(words[1..], gaps[1..]))
  {
    var w, rest := words[0], Layout(words[1..], gaps[1..]);
    assert Layout(words, gaps) == gaps[0] + (WrittenWord(w) + rest);
    SkipGap(gaps[0], WrittenWord(w) + rest);
    WordStart(w, rest);
    OnwardWord([], w, rest);
    OnwardFromNothing(WrittenWord(w) + rest, false, false);
    AfterWord(words, gaps);
    assert [] + Meaning(w) == Meaning(w) && Meaning(w) + [] == Meaning(w);
  }

  /** The character after a word is a space, and dropping it does not matter. */
  lemma {:induction false} AfterWord(words: seq<Word>, gaps: seq<string>)
    requires |gaps| == |words| + 1 && GapsOK(words, gaps) && words != []
    ensures
      var rest := Layout(words[1..], gaps[1..]);
      Collect(rest, false, false) == ("", if rest == [] then [] else rest[1..])
      && Split(if rest == [] then [] else rest[1..]) == Split(rest)
  {
    var rest := Layout(words[1..], gaps[1..]);
    if rest != [] {
      assert AllSpace(gaps[1]);
      assert gaps[1..][0] == gaps[1];
      assert rest[0] == gaps[1][0];
      assert SkipSpaces(rest) == SkipSpaces(rest[1..]);
    }
  }

  /** Every argument without a NUL can be written as a word, the empty one included. */
  function Quoted(arg: string): Word
  {
    if arg == [] then [DoubleQuoted([])] else QuotedChars(arg)
  }

  function QuotedChars(arg: string): Word
  {
    if arg == [] then []
    else [if arg[0] == DQ then SingleQuoted([arg[0]]) else DoubleQuoted([arg[0]])] + QuotedChars(arg[1..])
  }

  lemma {:induction false} QuotedMeans(arg: string)
    requires NUL !in arg
    ensures Meaning(Quoted(arg)) == arg && WordOK(Quoted(arg))
  {
    if arg == [] {
      assert WrittenWord(Quoted(arg)) == [DQ, DQ];
    } else {
      QuotedCharsMean(arg);
    }
  }

  lemma {:induction false} QuotedCharsMean(arg: string)
    requires NUL !in arg
    ensures Meaning(QuotedChars(arg)) == arg && (arg != [] ==> WrittenWord(QuotedChars(arg)) != [])
    ensures forall i :: 0 <= i < |QuotedChars(arg)| ==> PieceOK(QuotedChars(arg)[i])
  {
    if arg != [] {
      QuotedCharsMean(arg[1..]);
      var w := QuotedChars(arg);
      assert w[1..] == QuotedChars(arg[1..]);
      assert Written(w[0]) != [] && PieceOK(w[0]);
    }
  }

  function QuotedAll(args: seq<string>): seq<Word>
  {
    seq(|args|, i requires 0 <= i < |args| => Quoted(args[i]))
  }

  /** One rendering of a list of arguments that splits back to it. */
  function Rendered(args: seq<string>): string
  {
    Layout(QuotedAll(args), seq(|args| + 1, _ => " "))
  }

  lemma {:induction false} RoundTrip(args: seq<string>)
    requires forall i :: 0 <= i < |args| ==> NUL !in args[i]
    ensures Split(Rendered(args)) == args
  {
    forall i | 0 <= i < |args|
      ensures WordOK(QuotedAll(args)[i])
    {
      QuotedMeans(args[i]);
    }
    SplitUndoesQuoting(QuotedAll(args), seq(|args| + 1, _ => " "));
    MeaningsOfQuoted(args);
  }

  lemma {:induction false} MeaningsOfQuoted(args: seq<string>)
    requires forall i :: 0 <= i < |args| ==> NUL !in args[i]
    ensures Meanings(QuotedAll(args)) == args
  {
    if args != [] {
      QuotedMeans(args[0]);
      MeaningsOfQuoted(args[1..]);
      assert QuotedAll(args)[1..] == QuotedAll(args[1..]);
    }
  }

  // ---------- one argument after the other ----------

  /** What isspace() is true of in the C locale, as section 7.4.1.10 of ISO/IEC 9899:2011
      lists it. */
  const WHITE: set<char> := {' ', '\U{0C}', '\n', '\r', '\t', '\U{0B}'}

  /** Each word with the character after it. */
  function Joined(words: seq<string>, seps: string): string
    requires |seps| == |words|
  {
    if words == [] then [] else words[0] + [seps[0]] + Joined(words[1..], seps[1..])
  }

  predicate PlainWord(w: string)
  {
    w != [] && forall i :: 0 <= i < |w| ==> w[i] !in WHITE && w[i] !in {DQ, SQ, NUL}
  }

  function AsWords(words: seq<string>): (r: seq<Word>)
    ensures |r| == |words|
  {
    seq(|words|, i requires 0 <= i < |words| => [Plain(words[i])])
  }

  function GapsFrom(gap: string, seps: string): (r: seq<string>)
    ensures |r| == |seps| + 1
  {
    seq(|seps| + 1, i requires 0 <= i < |seps| + 1 => if i == 0 then gap else [seps[i - 1]])
  }

  lemma {:induction false} LayoutOfJoined(gap: string, words: seq<string>, seps: string)
    requires |seps| == |words|
    ensures Layout(AsWords(words), GapsFrom(gap, seps)) == gap + Joined(words, seps)
    decreases |words|
  {
    if words != [] {
      LayoutOfJoined([seps[0]], words[1..], seps[1..]);
      var ws, gaps := AsWords(words), GapsFrom(gap, seps);
      assert ws[1..] == AsWords(words[1..]) && gaps[1..] == GapsFrom([seps[0]], seps[1..]);
      assert ws[0] == [Plain(words[0])] && WrittenWord(ws[0]) == words[0] by {
        assert WrittenWord(ws[0][1..]) == [];
      }
      assert gap + words[0] + ([seps[0]] + Joined(words[1..], seps[1..])) == gap + Joined(words, seps);
    }
  }

  /** Words without quotes, each followed by any white space character, be it a blank or
      the end of a line, are the arguments; and nothing else separates arguments. */
  lemma {:induction false} JoinedSplits(words: seq<string>, seps: string)
    requires |seps| == |words| && forall i :: 0 <= i < |words| ==> PlainWord(words[i]) && seps[i] in WHITE
    ensures Split(Joined(words, seps)) == words
  {
    var ws, gaps := AsWords(words), GapsFrom([], seps);
    assert [] + Joined(words, seps) == Joined(words, seps);
    LayoutOfJoined([], words, seps);
    forall i | 0 <= i < |words|
      ensures WordOK(ws[i])
    {
      assert WrittenWord(ws[i][1..]) == [] && PieceOK(ws[i][0]) && WrittenWord(ws[i]) == words[i];
    }
    SplitUndoesQuoting(ws, gaps);
    MeaningsOfPlain(words);
  }

  lemma {:induction false} MeaningsOfPlain(words: seq<string>)
    ensures Meanings(AsWords(words)) == words
  {
    if words != [] {
      MeaningsOfPlain(words[1..]);
      assert AsWords(words)[1..] == AsWords(words[1..]);
      assert Meaning([Plain(words[0])]) == words[0] by {
        assert [Plain(words[0])][1..] == [] && words[0] + [] == words[0];
      }
    }
  }
}
