/** @file arguments: the arguments in a readable file take the place of the argument
    that names it, in order, and so on inside that file. */
module ArgExpansion {
  import opened MaskContext
  import opened ArgSplitting

  /** The files that can be opened, by name. */
  type Files = map<string, string>

  /** The file that an argument stands for, if it names one that can be read. */
  function Referred(arg: string, files: Files): Option<string>
  {
    if arg != [] && arg[0] == '@' && arg[1..] in files then Some(arg[1..]) else None
  }

  type Ranking = string -> nat

  ghost function Depth(arg: string, files: Files, rank: Ranking): nat
  {
    match Referred(arg, files)
    case None => 0
    case Some(name) => rank(name) + 1
  }

  ghost predicate Within(args: seq<string>, files: Files, rank: Ranking, bound: nat)
  {
    forall i :: 0 <= i < |args| ==> Depth(args[i], files, rank) <= bound
  }

  /** The ranking shows that no file refers back to itself. */
  ghost predicate Acyclic(files: Files, rank: Ranking)
  {
    forall name :: name in files ==> Within(Split(files[name]), files, rank, rank(name))
  }

  ghost function Expand(arg: string, files: Files, rank: Ranking): seq<string>
    requires Acyclic(files, rank)
    decreases Depth(arg, files, rank), 0
  {
    match Referred(arg, files)
    case None => [arg]
    case Some(name) => ExpandAll(Split(files[name]), files, rank, rank(name))
  }

  ghost function ExpandAll(args: seq<string>, files: Files, rank: Ranking, bound: nat): seq<string>
    requires Acyclic(files, rank) && Within(args, files, rank, bound)
    decreases bound, |args| + 1
  {
    if args == [] then []
    else Expand(args[0], files, rank) + ExpandAll(args[1..], files, rank, bound)
  }

  // ---------- collecting them ----------

  /** The vector of arguments that all sources are added to. */
  class Argv {
    var args: seq<string>

    constructor ()
      ensures args == []
    {
      args := [];
    }

    method PushBack(arg: string)
      modifies this
      ensures args == old(args) + [arg]
    {
      args := args + [arg];
    }
  }

  method AddArgsFromFactory(
    factory: ArgFactory, argv: Argv, files: Files, ghost rank: Ranking, ghost bound: nat)
    requires factory.Valid() && Acyclic(files, rank) && Within(Split(factory.data[factory.pos..]), files, rank, bound)
    modifies factory, argv
    ensures factory.Valid()
    ensures argv.args == old(argv.args) + ExpandAll(Split(old(factory.data[factory.pos..])), files, rank, bound)
    decreases bound, 2
  {
    hide NextArg, Expand, ExpandAll, Acyclic, Split, Within;
    ghost var all := ExpandAll(Split(factory.data[factory.pos..]), files, rank, bound);
    while true
      invariant factory.Valid() && Within(Split(factory.data[factory.pos..]), files, rank, bound)
      invariant argv.args + ExpandAll(Split(factory.data[factory.pos..]), files, rank, bound) == old(argv.args) + all
      decreases |factory.data| - factory.pos
    {
      NextExpanded(factory.data[factory.pos..], files, rank, bound);
      var nextArg := factory.GetNextArg();
      if nextArg.None? {
        break;
      }
      AddSingleArg(nextArg.value, argv, files, rank);
    }
  }

  /** What the rest of a text still adds, one argument at a time. */
  lemma NextExpanded(s: string, files: Files, rank: Ranking, bound: nat)
    requires Acyclic(files, rank) && Within(Split(s), files, rank, bound)
    ensures
      var r := NextArg(s);
      if r.0.None? then ExpandAll(Split(s), files, rank, bound) == []
      else
        Depth(r.0.value, files, rank) <= bound && Within(Split(r.1), files, rank, bound)
        && ExpandAll(Split(s), files, rank, bound)
             == Expand(r.0.value, files, rank) + ExpandAll(Split(r.1), files, rank, bound)
  {
    var r := NextArg(s);
    if r.0.Some? {
      assert Split(s)[0] == r.0.value && Split(s)[1..] == Split(r.1);
    }
  }

  method AddSingleArg(arg: string, argv: Argv, files: Files, ghost rank: Ranking)
    requires Acyclic(files, rank)
    modifies argv
    ensures argv.args == old(argv.args) + Expand(arg, files, rank)
    decreases Depth(arg, files, rank), 1
  {
    if arg != [] && arg[0] == '@' {
      var filename := arg[1..];
      if filename in files {
        var factory := new ArgFactory(files[filename]);
        assert factory.data[0..] == files[filename];
        AddArgsFromFactory(factory, argv, files, rank, rank(filename));
        return;
      }
    }
    argv.PushBack(arg);
  }

  /** The command line, then the ISPC_ARGS environment variable if it is set. */
  method GetAllArgs(
    commandLine: seq<string>, env: Option<string>, argv: Argv, files: Files, ghost rank: Ranking, ghost bound: nat)
    requires Acyclic(files, rank) && Within(commandLine, files, rank, bound)
    requires env.Some? ==> NUL !in env.value && Within(Split(env.value), files, rank, bound)
    modifies argv
    ensures argv.args == old(argv.args) + ExpandAll(commandLine, files, rank, bound)
        + (if env.Some? then ExpandAll(Split(env.value), files, rank, bound) else [])
  {
    for i := 0 to |commandLine|
      invariant argv.args == old(argv.args) + ExpandAll(commandLine[..i], files, rank, bound)
    {
      AddSingleArg(commandLine[i], argv, files, rank);
      ExpandOneMore(commandLine, i, files, rank, bound);
    }
    assert commandLine[..|commandLine|] == commandLine;
    if env.Some? {
      var factory := new ArgFactory(env.value);
      assert factory.data[0..] == env.value;
      AddArgsFromFactory(factory, argv, files, rank, bound);
    }
  }

  // ---------- what expansion means ----------

  lemma ExpandFirst(args: seq<string>, files: Files, rank: Ranking, bound: nat)
    requires Acyclic(files, rank) && Within(args, files, rank, bound) && args != []
    ensures ExpandAll(args, files, rank, bound)
         == Expand(args[0], files, rank) + ExpandAll(args[1..], files, rank, bound)
  {
  }

  /** Expansion goes through a list in order. */
  lemma {:induction false} ExpandAppend(
    a: seq<string>, b: seq<string>, files: Files, rank: Ranking, bound: nat)
    requires Acyclic(files, rank) && Within(a, files, rank, bound) && Within(b, files, rank, bound)
    ensures Within(a + b, files, rank, bound)
    ensures ExpandAll(a + b, files, rank, bound) == ExpandAll(a, files, rank, bound) + ExpandAll(b, files, rank, bound)
    decreases |a|
  {
    if a == [] {
      assert a + b == b;
    } else {
      ExpandAppend(a[1..], b, files, rank, bound);
      assert (a + b)[1..] == a[1..] + b;
    }
  }

  lemma {:induction false} ExpandOneMore(args: seq<string>, i: nat, files: Files, rank: Ranking, bound: nat)
    requires Acyclic(files, rank) && Within(args, files, rank, bound) && i < |args|
    ensures ExpandAll(args[..i + 1], files, rank, bound)
         == ExpandAll(args[..i], files, rank, bound) + Expand(args[i], files, rank)
  {
    assert args[..i + 1] == args[..i] + [args[i]];
    ExpandAppend(args[..i], [args[i]], files, rank, bound);
    assert ExpandAll([args[i]], files, rank, bound) == Expand(args[i], files, rank) + [];
  }

  /** Nothing that still names a readable file is left. */
  lemma {:induction false} FullyExpanded(args: seq<string>, files: Files, rank: Ranking, bound: nat)
    requires Acyclic(files, rank) && Within(args, files, rank, bound)
    ensures forall i :: 0 <= i < |ExpandAll(args, files, rank, bound)| ==>
        Referred(ExpandAll(args, files, rank, bound)[i], files).None?
    decreases bound, |args|
  {
    if args != [] {
      match Referred(args[0], files) {
        case None =>
        case Some(name) => FullyExpanded(Split(files[name]), files, rank, rank(name));
      }
      FullyExpanded(args[1..], files, rank, bound);
      ExpandFirst(args, files, rank, bound);
      var first, rest := Expand(args[0], files, rank), ExpandAll(args[1..], files, rank, bound);
      assert forall i :: 0 <= i < |first| ==> Referred(first[i], files).None?;
      assert forall i :: |first| <= i < |first + rest| ==> (first + rest)[i] == rest[i - |first|];
    }
  }

  /** Arguments that name no readable file, @name ones included, are kept as they are. */
  lemma {:induction false} UnreadableKept(args: seq<string>, files: Files, rank: Ranking, bound: nat)
    requires Acyclic(files, rank)
    requires forall i :: 0 <= i < |args| ==> Referred(args[i], files).None?
    ensures Within(args, files, rank, bound) && ExpandAll(args, files, rank, bound) == args
    decreases |args|
  {
    if args != [] {
      UnreadableKept(args[1..], files, rank, bound);
    }
  }

  /** The result depends on the files alone, not on how they were ranked. */
  lemma {:induction false} RankDoesNotMatter(
    args: seq<string>, files: Files, rank: Ranking, bound: nat, rank1: Ranking, bound1: nat)
    requires Acyclic(files, rank) && Within(args, files, rank, bound)
    requires Acyclic(files, rank1) && Within(args, files, rank1, bound1)
    ensures ExpandAll(args, files, rank, bound) == ExpandAll(args, files, rank1, bound1)
    decreases bound, |args|
  {
    if args != [] {
      match Referred(args[0], files) {
        case None =>
        case Some(name) => RankDoesNotMatter(Split(files[name]), files, rank, rank(name), rank1, rank1(name));
      }
      assert Expand(args[0], files, rank) == Expand(args[0], files, rank1);
      RankDoesNotMatter(args[1..], files, rank, bound, rank1, bound1);
      ExpandFirst(args, files, rank, bound);
      ExpandFirst(args, files, rank1, bound1);
    }
  }

  /** A file that holds a rendering of some arguments stands for exactly these. */
  lemma {:induction false} FileStandsForItsArgs(
    name: string, args: seq<string>, files: Files, rank: Ranking, bound: nat)
    requires Acyclic(files, rank) && Within(args, files, rank, bound)
    requires name in files && files[name] == Rendered(args)
    requires forall i :: 0 <= i < |args| ==> NUL !in args[i]
    ensures Expand("@" + name, files, rank) == ExpandAll(args, files, rank, bound)
  {
    RoundTrip(args);
    assert ("@" + name)[1..] == name;
    RankDoesNotMatter(args, files, rank, rank(name), rank, bound);
  }
}
