/** Indent, the helper that draws the branches of an AST dump, and what can be read
    back from its drawing. */
module TreeDump {
  import opened MaskContext

  /** A node to print: the label its parent sets for it, its title and its children. */
  datatype Tree = Node(tag: string, title: string, kids: seq<Tree>)

  // ---------- what a dump looks like ----------

  function Text(tag: string, title: string): string
  {
    (if tag != [] then "(" + tag + ") " else "") + title
  }

  /** One cell for each ancestor: blank under a last child, else a bar. */
  function Cells(last: seq<bool>): string
  {
    if last == [] then "" else (if last[0] then "  " else "| ") + Cells(last[1..])
  }

  function Line(above: seq<bool>, isLast: bool, text: string): string
  {
    Cells(above) + (if isLast then "`-" else "|-") + text
  }

  /** The dump of a node below ancestors that are last children or not. */
  function DumpOf(t: Tree, above: seq<bool>, isLast: bool): seq<string>
    decreases t, 0
  {
    [Line(above, isLast, Text(t.tag, t.title))] + DumpAll(t.kids, above + [isLast])
  }

  function DumpAll(ts: seq<Tree>, above: seq<bool>): seq<string>
    decreases ts, 1
  {
    if ts == [] then [] else DumpOf(ts[0], above, |ts| == 1) + DumpAll(ts[1..], above)
  }

  // ---------- how it is drawn ----------

  /** Which ancestors have no more children to come. */
  function Ended(stack: seq<int>): seq<bool>
  {
    seq(|stack|, i requires 0 <= i < |stack| => stack[i] == 0)
  }

  /** The stack once one more child of the top has been printed and is done. */
  function OneLess(stack: seq<int>): seq<int>
    requires stack != []
  {
    var n := |stack| - 1;
    if stack[n] == 1 then stack[..n] else stack[n := stack[n] - 1]
  }

  class Indent {
    var nextLabel: string
    var stack: seq<int>
    var printCalls: nat
    var doneCalls: nat
    var lines: seq<string>  // what has been printed

    constructor ()
      ensures stack == [] && lines == [] && nextLabel == [] && printCalls == doneCalls == 0
    {
      nextLabel, stack, lines, printCalls, doneCalls := [], [], [], 0, 0;
    }

    /** What the destructor asserts. */
    predicate CanBeDestroyed()
      reads this
    {
      stack == [] && printCalls == doneCalls
    }

    method PushSingle()
      modifies this`stack
      ensures stack == old(stack) + [1]
    {
      stack := stack + [1];
    }

    method PushList(i: int)
      modifies this`stack
      ensures stack == if i > 0 then old(stack) + [i] else old(stack)
    {
      if i > 0 {
        stack := stack + [i];
      }
    }

    method SetNextLabel(s: string)
      modifies this`nextLabel
      ensures nextLabel == s
    {
      nextLabel := s;
    }

    method PrintCells() returns (cells: string)
      requires stack != []
      ensures cells == Cells(Ended(stack[..|stack| - 1]))
    {
      cells := "";
      for i := 0 to |stack| - 1
        invariant cells == Cells(Ended(stack[..i]))
      {
        cells := cells + (if stack[i] == 0 then "  " else "| ");
        MoreCells(Ended(stack[..i]), stack[i] == 0);
        assert Ended(stack[..i + 1]) == Ended(stack[..i]) + [stack[i] == 0];
      }
    }

    method Print(title: string)
      requires stack != [] && stack[|stack| - 1] > 0
      modifies this
      ensures nextLabel == [] && printCalls == old(printCalls) + 1 && doneCalls == old(doneCalls)
      ensures stack == old(stack)[|old(stack)| - 1 := old(stack)[|old(stack)| - 1] - 1]
      ensures
        var n := |old(stack)| - 1;
        lines == old(lines) + [Line(Ended(old(stack)[..n]), old(stack)[n] == 1, Text(old(nextLabel), title))]
    {
      printCalls := printCalls + 1;
      var n := |stack| - 1;
      var line := PrintCells();
      if stack[n] == 1 {
        line := line + "`-";
      } else {
        line := line + "|-";
      }
      stack := stack[n := stack[n] - 1];
      var text := "" + title;
      if nextLabel != [] {
        text := "(" + nextLabel + ") " + title;
        nextLabel := [];
      }
      assert text == Text(old(nextLabel), title);
      line := line + text;
      lines := lines + [line];
    }

    method Done()
      requires stack != [] && stack[|stack| - 1] >= 0
      modifies this`stack, this`doneCalls
      ensures doneCalls == old(doneCalls) + 1
      ensures stack == if old(stack)[|old(stack)| - 1] == 0 then old(stack)[..|old(stack)| - 1] else old(stack)
    {
      doneCalls := doneCalls + 1;
      var n := |stack| - 1;
      if stack[n] == 0 {
        stack := stack[..n];
      }
    }

    /** A node under the protocol: print it, announce and print its children, done. */
    method PrintNode(t: Tree)
      requires stack != [] && stack[|stack| - 1] > 0
      modifies this
      ensures stack == OneLess(old(stack)) && nextLabel == []
      ensures printCalls - old(printCalls) == doneCalls - old(doneCalls)
      ensures
        var n := |old(stack)| - 1;
        lines == old(lines) + DumpOf(t, Ended(old(stack)[..n]), old(stack)[n] == 1)
      decreases t, 0
    {
      hide Cells, Text;
      ghost var n := |stack| - 1;
      SetNextLabel(t.tag);
      Print(t.title);
      ghost var above := stack;
      assert Ended(above) == Ended(old(stack)[..n]) + [old(stack)[n] == 1];
      PushList(|t.kids|);
      if |t.kids| > 0 {
        assert stack[..|stack| - 1] == above;
        PrintList(t.kids);
      }
      assert stack == above;
      Done();
    }

    /** A list of nodes, once it has been announced. */
    method PrintList(ts: seq<Tree>)
      requires ts != [] && stack != [] && stack[|stack| - 1] == |ts|
      modifies this
      ensures stack == old(stack)[..|old(stack)| - 1] && nextLabel == []
      ensures printCalls - old(printCalls) == doneCalls - old(doneCalls)
      ensures lines == old(lines) + DumpAll(ts, Ended(old(stack)[..|old(stack)| - 1]))
      decreases ts, 1
    {
      ghost var above := stack[..|stack| - 1];
      assert ts[0..] == ts && stack == above + [|ts|];
      var i := 0;
      while i < |ts|
        invariant 0 <= i <= |ts|
        invariant stack == if i < |ts| then above + [|ts| - i] else above
        invariant printCalls - old(printCalls) == doneCalls - old(doneCalls)
        invariant lines + DumpAll(ts[i..], Ended(above)) == old(lines) + DumpAll(ts, Ended(above))
        invariant i > 0 ==> nextLabel == []
      {
        assert stack[..|stack| - 1] == above;
        assert ts[i..][0] == ts[i] && ts[i..][1..] == ts[i + 1..];
        PrintNode(ts[i]);
        i := i + 1;
      }
    }
  }

  lemma {:induction false} MoreCells(last: seq<bool>, l: bool)
    ensures Cells(last + [l]) == Cells(last) + if l then "  " else "| "
  {
    if last != [] {
      assert (last + [l])[1..] == last[1..] + [l];
      MoreCells(last[1..], l);
    }
  }

  /** The dump of one node, ASTNode::Dump: a list of one. */
  method Dump(t: Tree) returns (lines: seq<string>)
    ensures lines == DumpOf(t, [], true) && Parsed(lines) == Some([Printed(t)])
  {
    var indent := new Indent();
    indent.PushSingle();
    assert indent.stack[..0] == [];
    indent.PrintNode(t);
    assert indent.CanBeDestroyed();
    lines := indent.lines;
    assert lines == DumpAll([t], []) by {
      assert DumpAll([], []) == [];
    }
    assert AllPrinted([t]) == [Printed(t)] by { FirstPrinted([t]); }
    DumpParsesBack([t]);
  }

  /** The dump of a whole AST: its functions as one list.  The stack and the calls
      balance, as the destructor asserts. */
  method DumpAst(functions: seq<Tree>) returns (lines: seq<string>)
    ensures lines == DumpAll(functions, [])
    ensures Parsed(lines) == Some(AllPrinted(functions))
  {
    var indent := new Indent();
    indent.PushList(|functions|);
    if |functions| > 0 {
      indent.PrintList(functions);
    }
    assert indent.CanBeDestroyed();
    lines := indent.lines;
    DumpParsesBack(functions);
  }

  // ---------- reading it back ----------

  /** What a dump shows of a node: its text and its children. */
  datatype Shown = Shown(text: string, kids: seq<Shown>)

  function Printed(t: Tree): Shown
    decreases t, 0
  {
    Shown(Text(t.tag, t.title), AllPrinted(t.kids))
  }

  function AllPrinted(ts: seq<Tree>): seq<Shown>
    decreases ts, 1
  {
    if ts == [] then [] else [Printed(ts[0])] + AllPrinted(ts[1..])
  }

  /** The rest of a line that starts with a bar below each ancestor that has children to
      come, and a blank below each one that has not. */
  function ReadCells(line: string, above: seq<bool>): Option<string>
    decreases |above|
  {
    if above == [] then Some(line)
    else if |line| >= 2 && line[0] == (if above[0] then ' ' else '|') && line[1] == ' '
    then ReadCells(line[2..], above[1..])
    else None
  }

  /** A line below these ancestors: is it a last child's, and its text. */
  function ReadLine(line: string, above: seq<bool>): Option<(bool, string)>
  {
    match ReadCells(line, above)
    case None => None
    case Some(rest) =>
      if |rest| >= 2 && rest[0] in {'`', '|'} && rest[1] == '-' then Some((rest[0] == '`', rest[2..])) else None
  }

  /** A list of siblings, which goes up to the one with the last branch, and the lines
      after it. */
  function ReadList(lines: seq<string>, above: seq<bool>): (r: Option<(seq<Shown>, seq<string>)>)
    ensures r.Some? ==> |r.value.1| < |lines|
    decreases |lines|, 0
  {
    if lines == [] || ReadLine(lines[0], above).None? then None
    else
      var first := ReadLine(lines[0], above).value;
      match ReadKids(lines[1..], above + [first.0])
      case None => None
      case Some(kids) =>
        var node := Shown(first.1, kids.0);
        if first.0 then Some(([node], kids.1))
        else
          match ReadList(kids.1, above)
          case None => None
          case Some(siblings) => Some(([node] + siblings.0, siblings.1))
  }

  function ReadKids(lines: seq<string>, above: seq<bool>): (r: Option<(seq<Shown>, seq<string>)>)
    ensures r.Some? ==> |r.value.1| <= |lines|
    decreases |lines|, 1
  {
    if lines == [] || ReadLine(lines[0], above).None? then Some(([], lines)) else ReadList(lines, above)
  }

  /** Reading a whole dump. */
  function Parsed(lines: seq<string>): Option<seq<Shown>>
  {
    match ReadKids(lines, [])
    case None => None
    case Some(r) => if r.1 == [] then Some(r.0) else None
  }

  lemma {:induction false} LineReads(above: seq<bool>, isLast: bool, text: string)
    ensures ReadLine(Line(above, isLast, text), above) == Some((isLast, text))
  {
    var line := Line(above, isLast, text);
    if above == [] {
      assert line[2..] == text;
    } else {
      assert line[2..] == Line(above[1..], isLast, text);
      LineReads(above[1..], isLast, text);
    }
  }

  /** The number of cells at the start of a line. */
  function Depth(line: string): nat
  {
    if |line| >= 2 && line[0] in {' ', '|'} && line[1] == ' ' then Depth(line[2..]) + 1 else 0
  }

  lemma {:induction false} ReadsAtItsDepth(line: string, above: seq<bool>)
    requires ReadLine(line, above).Some?
    ensures Depth(line) == |above|
    decreases |above|
  {
    if above != [] {
      assert ReadLine(line[2..], above[1..]) == ReadLine(line, above);
      ReadsAtItsDepth(line[2..], above[1..]);
    }
  }

  /** The lines after a list of nodes do not belong below its parent. */
  ghost predicate Outside(rest: seq<string>, d: nat)
  {
    rest == [] || Depth(rest[0]) < d
  }

  lemma NothingBelow(rest: seq<string>, above: seq<bool>)
    requires Outside(rest, |above|)
    ensures ReadKids(rest, above) == Some(([], rest))
  {
    if rest != [] && ReadLine(rest[0], above).Some? {
      ReadsAtItsDepth(rest[0], above);
    }
  }

  lemma FirstDumped(ts: seq<Tree>, above: seq<bool>, rest: seq<string>)
    requires ts != []
    ensures
      var t, last := ts[0], |ts| == 1;
      DumpAll(ts, above) + rest
        == [Line(above, last, Text(t.tag, t.title))]
           + (DumpAll(t.kids, above + [last]) + (DumpAll(ts[1..], above) + rest))
  {
    var t, last := ts[0], |ts| == 1;
    var line, kids := [Line(above, last, Text(t.tag, t.title))], DumpAll(t.kids, above + [last]);
    var siblings := DumpAll(ts[1..], above);
    assert DumpAll(ts, above) == line + kids + siblings;
    hide DumpAll, Line, Text;
    assert (line + kids + siblings) + rest == line + (kids + (siblings + rest));
  }

  lemma FirstPrinted(ts: seq<Tree>)
    requires ts != []
    ensures AllPrinted(ts) == [Shown(Text(ts[0].tag, ts[0].title), AllPrinted(ts[0].kids))] + AllPrinted(ts[1..])
  {
  }

  lemma SiblingsOutside(ts: seq<Tree>, above: seq<bool>, rest: seq<string>)
    requires Outside(rest, |above|)
    ensures Outside(DumpAll(ts, above) + rest, |above| + 1)
  {
    if ts != [] {
      var text := Text(ts[0].tag, ts[0].title);
      LineReads(above, |ts| == 1, text);
      ReadsAtItsDepth(Line(above, |ts| == 1, text), above);
      FirstDumped(ts, above, rest);
    } else {
      assert DumpAll(ts, above) + rest == rest;
    }
  }

  lemma {:induction false} KidsRead(ts: seq<Tree>, above: seq<bool>, rest: seq<string>)
    requires Outside(rest, |above|)
    ensures ReadKids(DumpAll(ts, above) + rest, above) == Some((AllPrinted(ts), rest))
    decreases ts, 1
  {
    if ts == [] {
      assert DumpAll(ts, above) + rest == rest;
      NothingBelow(rest, above);
    } else {
      ListReads(ts, above, rest);
      FirstDumped(ts, above, rest);
      LineReads(above, |ts| == 1, Text(ts[0].tag, ts[0].title));
    }
  }

  lemma {:induction false} ListReads(ts: seq<Tree>, above: seq<bool>, rest: seq<string>)
    requires ts != [] && Outside(rest, |above|)
    ensures ReadList(DumpAll(ts, above) + rest, above) == Some((AllPrinted(ts), rest))
    decreases ts, 0
  {
    FirstDumped(ts, above, rest);
    FirstPrinted(ts);
    hide DumpAll, DumpOf, AllPrinted, Depth, Outside, Line, Text, ReadLine;
    var t, last := ts[0], |ts| == 1;
    var first, kids := Line(above, last, Text(t.tag, t.title)), DumpAll(t.kids, above + [last]);
    var siblings := DumpAll(ts[1..], above) + rest;
    SiblingsOutside(ts[1..], above, rest);
    LineReads(above, last, Text(t.tag, t.title));
    KidsRead(t.kids, above + [last], siblings);
    assert ([first] + (kids + siblings))[1..] == kids + siblings;
    if last {
      NoneDumped(ts[1..], above, rest);
      assert siblings == rest && AllPrinted(ts) == [Shown(Text(t.tag, t.title), AllPrinted(t.kids))];
    } else {
      ListReads(ts[1..], above, rest);
    }
  }

  lemma NoneDumped(ts: seq<Tree>, above: seq<bool>, rest: seq<string>)
    requires ts == []
    ensures DumpAll(ts, above) + rest == rest && AllPrinted(ts) == []
  {
  }

  /** The drawing alone determines the trees: reading a dump by its bars, blanks and
      branches gives them back, and leaves no line over. */
  lemma {:induction false} DumpParsesBack(ts: seq<Tree>)
    ensures Parsed(DumpAll(ts, [])) == Some(AllPrinted(ts))
  {
    KidsRead(ts, [], []);
    assert DumpAll(ts, []) + [] == DumpAll(ts, []);
  }

  /** The label of a node and its title, from its text: a label stands in parentheses. */
  function ReadText(text: string): (string, string)
  {
    if text == [] || text[0] != '(' then ("", text) else ReadLabel(text[1..])
  }

  function ReadLabel(text: string): (string, string)
  {
    if text == [] then ("", "")
    else if text[0] == ')' then ("", if |text| >= 2 then text[2..] else "")
    else var r := ReadLabel(text[1..]); ([text[0]] + r.0, r.1)
  }

  /** Labels have no closing parenthesis, and unlabelled titles do not start like one. */
  predicate Readable(tag: string, title: string)
  {
    ')' !in tag && (tag == [] && title != [] ==> title[0] != '(')
  }

  lemma {:induction false} LabelReads(tag: string, title: string)
    requires ')' !in tag
    ensures ReadLabel(tag + ") " + title) == (tag, title)
  {
    var text := tag + ") " + title;
    if tag == [] {
      assert text[0] == ')' && text[2..] == title;
    } else {
      assert text[0] == tag[0] && tag[0] in tag;
      assert text[1..] == tag[1..] + ") " + title;
      LabelReads(tag[1..], title);
      assert tag == [tag[0]] + tag[1..];
    }
  }

  /** The text tells the label from the title. */
  lemma {:induction false} TextReads(tag: string, title: string)
    requires Readable(tag, title)
    ensures ReadText(Text(tag, title)) == (tag, title)
  {
    if tag == [] {
      assert Text(tag, title) == title;
    } else {
      LabelReads(tag, title);
      var text, inner := Text(tag, title), tag + ") " + title;
      assert text == "(" + inner;
      assert text[0] == '(' && text[1..] == inner;
    }
  }
}
