/** The test driver's work queue: any number of worker processes drain a joinable
    queue of tests, then one STOP each, while the parent waits in join().  A step is
    one shared access of one worker, and a schedule is any sequence of workers. */
module TestQueue {
  import opened MaskContext

  /** What is queued: the name of a test, or STOP. */
  datatype Name = Name(text: string)

  const STOP := Name("STOP")

  datatype Status = Success | Compfail | Runfail | Skip

  /** How a test goes: it is skipped, it runs to a status, or run_test raises. */
  datatype Attempt = Skipped | Ran(status: Status) | Raised

  datatype TestResult = TestResult(file: Name, status: Status)

  datatype Suite = Suite(files: seq<Name>, nthreads: nat, attempt: Name -> Attempt)

  datatype Worker =
    | Getting
    | Running(file: Name)
    | Reported(file: Name)             // its result is queued; wants the lock
    | Locked(file: Name)
    | Loaded(file: Name, value: nat)   // has read the counter
    | Stored(file: Name)               // has written it back
    | Unlocked(file: Name)
    | Stopping                           // has left the loop
    | Finished

  datatype State = State(
    queue: seq<Name>,
    unfinished: nat,           // what join() waits for to reach zero
    results: seq<TestResult>,
    counter: nat,
    lock: Option<nat>,
    workers: seq<Worker>,
    done: seq<Name>,         // the tests marked done, in order
    stopsDone: nat,            // the STOPs marked done
    failed: bool)              // task_done() was called too often

  function StatusOf(suite: Suite, file: Name): Status
  {
    match suite.attempt(file)
    case Skipped => Skip
    case Ran(status) => status
    case Raised => Runfail
  }

  function Stops(n: nat): seq<Name>
  {
    seq(n, _ => STOP)
  }

  function Items(suite: Suite): seq<Name>
  {
    suite.files + Stops(suite.nthreads)
  }

  /** The queue as the parent fills it, and the workers it starts. */
  method SetUp(suite: Suite) returns (s: State)
    ensures s == Initial(suite)
  {
    var queue := [];
    for i := 0 to |suite.files|
      invariant queue == suite.files[..i]
    {
      queue := queue + [suite.files[i]];
    }
    assert queue == suite.files;
    for x := 0 to suite.nthreads
      invariant queue == suite.files + Stops(x)
    {
      queue := queue + [STOP];
    }
    var workers := [];
    for x := 0 to suite.nthreads
      invariant workers == seq(x, _ => Getting)
    {
      workers := workers + [Getting];
    }
    s := State(queue, |queue|, [], 0, None, workers, [], 0, false);
  }

  function Initial(suite: Suite): State
  {
    State(Items(suite), |Items(suite)|, [], 0, None, seq(suite.nthreads, _ => Getting), [], 0, false)
  }

  // ---------- steps ----------

  predicate Enabled(s: State, w: nat)
  {
    w < |s.workers| &&
    match s.workers[w]
    case Getting => s.queue != []
    case Reported(_) => s.lock.None?
    case Finished => false
    case _ => true
  }

  function Moved(s: State, w: nat, pc: Worker): State
    requires w < |s.workers|
  {
    s.(workers := s.workers[w := pc])
  }

  function TaskDone(s: State): State
  {
    if s.unfinished == 0 then s.(failed := true) else s.(unfinished := s.unfinished - 1)
  }

  function Step(suite: Suite, s: State, w: nat): (s1: State)
    requires Enabled(s, w)
    ensures |s1.workers| == |s.workers| && forall v :: 0 <= v < |s.workers| && v != w ==> s1.workers[v] == s.workers[v]
  {
    match s.workers[w]
    case Getting =>
      var item := s.queue[0];
      Moved(s.(queue := s.queue[1..]), w, if item == STOP then Stopping else Running(item))
    case Running(file) =>
      Moved(s.(results := s.results + [TestResult(file, StatusOf(suite, file))]), w, Reported(file))
    case Reported(file) => Moved(s.(lock := Some(w)), w, Locked(file))
    case Locked(file) => Moved(s, w, Loaded(file, s.counter))
    case Loaded(file, value) => Moved(s.(counter := value + 1), w, Stored(file))
    case Stored(file) => Moved(s.(lock := None), w, Unlocked(file))
    case Unlocked(file) => Moved(TaskDone(s).(done := s.done + [file]), w, Getting)
    case Stopping => Moved(TaskDone(s).(stopsDone := s.stopsDone + 1), w, Finished)
    case Finished => s
  }

  /** s is reached by some interleaving of the workers. */
  ghost predicate Reachable(suite: Suite, s: State)
  {
    exists schedule: seq<nat> :: Reaches(suite, schedule, s)
  }

  ghost predicate Reaches(suite: Suite, schedule: seq<nat>, s: State)
    decreases |schedule|
  {
    if schedule == [] then s == Initial(suite)
    else
      var n := |schedule| - 1;
      exists s0 :: Reaches(suite, schedule[..n], s0) && Enabled(s0, schedule[n]) && s == Step(suite, s0, schedule[n])
  }

  /** join() returns. */
  predicate Joined(s: State)
  {
    s.unfinished == 0
  }

  // ---------- who holds what ----------

  /** What the workers are counted by. */
  datatype Trait = Busy | Counted | Retired | Holds(item: Name) | HasReported(file: Name)

  predicate Is(w: Worker, t: Trait)
  {
    match t
    case Busy => !w.Getting? && !w.Finished?
    case Counted => w.Stored? || w.Unlocked?
    case Retired => w.Finished?
    case Holds(item) => !w.Getting? && !w.Finished? && item == (if w.Stopping? then STOP else w.file)
    case HasReported(file) =>
      !w.Getting? && !w.Running? && !w.Stopping? && !w.Finished? && w.file == file
  }

  predicate Critical(w: Worker)
  {
    w.Locked? || w.Loaded? || w.Stored?
  }

  function Count(ws: seq<Worker>, t: Trait): nat
  {
    if ws == [] then 0 else Count(ws[..|ws| - 1], t) + (if Is(ws[|ws| - 1], t) then 1 else 0)
  }

  function FileNames(results: seq<TestResult>): (names: seq<Name>)
    ensures |names| == |results|
  {
    if results == [] then []
    else FileNames(results[..|results| - 1]) + [results[|results| - 1].file]
  }

  lemma FileNamesAppend(results: seq<TestResult>, r: TestResult)
    ensures FileNames(results + [r]) == FileNames(results) + [r.file]
  {
    assert (results + [r])[..|results|] == results;
  }

  lemma {:induction false} FileNamesAre(results: seq<TestResult>, i: nat)
    requires i < |results|
    ensures FileNames(results)[i] == results[i].file
  {
    if i < |results| - 1 {
      FileNamesAre(results[..|results| - 1], i);
    }
  }

  /** How often an item is in a list. */
  function Times(items: seq<Name>, x: Name): nat
  {
    multiset(items)[x]
  }

  // ---------- the invariant ----------

  /** How often an item is in the queue, in a worker's hand or marked done. */
  function Where(s: State, x: Name): nat
  {
    Times(s.queue, x) + Count(s.workers, Holds(x)) + Times(s.done, x) + (if x == STOP then s.stopsDone else 0)
  }

  /** Every enqueued item is in the queue, in one worker's hand or marked done. */
  ghost predicate ItemsKept(suite: Suite, s: State)
  {
    && (exists taken :: 0 <= taken <= |Items(suite)| && s.queue == Items(suite)[taken..])
    && forall x: Name :: Times(Items(suite), x) == Where(s, x)
  }

  ghost predicate WorkKept(s: State)
  {
    && !s.failed && s.unfinished == |s.queue| + Count(s.workers, Busy)
    && s.stopsDone == Count(s.workers, Retired)
    && STOP !in s.done
    && forall w :: 0 <= w < |s.workers| && Is(s.workers[w], Busy) && !s.workers[w].Stopping? ==>
         s.workers[w].file != STOP
  }

  /** One result for each test that is done or about to be. */
  ghost predicate ResultsKept(suite: Suite, s: State)
  {
    && (forall x: Name :: Times(FileNames(s.results), x) == Times(s.done, x) + Count(s.workers, HasReported(x)))
    && forall i :: 0 <= i < |s.results| ==> s.results[i].status == StatusOf(suite, s.results[i].file)
  }

  /** The lock keeps two increments apart, so none is lost. */
  ghost predicate CounterKept(s: State)
  {
    && s.counter == |s.done| + Count(s.workers, Counted)
    && (s.lock.Some? ==> s.lock.value < |s.workers|)
    && (forall w :: 0 <= w < |s.workers| ==> (Critical(s.workers[w]) <==> s.lock == Some(w)))
    && (forall w :: 0 <= w < |s.workers| && s.workers[w].Loaded? ==> s.workers[w].value == s.counter)
  }

  ghost predicate Inv(suite: Suite, s: State)
  {
    && |s.workers| == suite.nthreads
    && ItemsKept(suite, s) && WorkKept(s) && ResultsKept(suite, s) && CounterKept(s)
  }

  lemma {:induction false} CountMoved(ws: seq<Worker>, w: nat, pc: Worker, t: Trait)
    requires w < |ws|
    ensures Count(ws[w := pc], t) == Count(ws, t) - (if Is(ws[w], t) then 1 else 0) + (if Is(pc, t) then 1 else 0)
    ensures Is(ws[w], t) ==> Count(ws, t) > 0
  {
    var n := |ws| - 1;
    if w < n {
      CountMoved(ws[..n], w, pc, t);
      assert ws[w := pc][..n] == ws[..n][w := pc];
    } else {
      assert ws[w := pc][..n] == ws[..n];
    }
  }

  lemma {:induction false} NoneYet(n: nat, t: Trait)
    ensures Count(seq(n, _ => Getting), t) == 0
  {
    if n > 0 {
      NoneYet(n - 1, t);
      assert seq(n, _ => Getting)[..n - 1] == seq(n - 1, _ => Getting);
    }
  }

  lemma InitialInv(suite: Suite)
    ensures Inv(suite, Initial(suite))
  {
    var s := Initial(suite);
    forall t: Trait
      ensures Count(s.workers, t) == 0
    {
      NoneYet(suite.nthreads, t);
    }
    hide Count, Is, StatusOf;
    assert s.queue == Items(suite)[0..];
    assert forall x: Name :: Times(s.done, x) == Times(FileNames(s.results), x) == 0;
  }

  lemma TimesAppend(items: seq<Name>, x: Name, y: Name)
    ensures Times(items + [y], x) == Times(items, x) + if x == y then 1 else 0
  {
  }

  lemma TimesFirst(items: seq<Name>, x: Name)
    requires items != []
    ensures Times(items, x) == Times(items[1..], x) + if x == items[0] then 1 else 0
  {
    assert items == [items[0]] + items[1..];
  }

  lemma ItemsStayKept(suite: Suite, s: State, w: nat)
    requires ItemsKept(suite, s) && WorkKept(s) && Enabled(s, w)
    ensures ItemsKept(suite, Step(suite, s, w))
  {
    var s1 := Step(suite, s, w);
    QueueStaysSuffix(suite, s, w);
    hide Times, Step, Enabled, WorkKept, Count;
    forall x: Name
      ensures Times(Items(suite), x) == Where(s1, x)
    {
      assert Times(Items(suite), x) == Where(s, x);
      ItemStaysKept(suite, s, w, x);
    }
  }

  lemma QueueStaysSuffix(suite: Suite, s: State, w: nat)
    requires Enabled(s, w) && exists taken :: 0 <= taken <= |Items(suite)| && s.queue == Items(suite)[taken..]
    ensures exists taken :: 0 <= taken <= |Items(suite)| && Step(suite, s, w).queue == Items(suite)[taken..]
  {
    var taken :| 0 <= taken <= |Items(suite)| && s.queue == Items(suite)[taken..];
    assert s.workers[w].Getting? ==> s.queue[1..] == Items(suite)[taken + 1..];
  }

  lemma ItemStaysKept(suite: Suite, s: State, w: nat, x: Name)
    requires WorkKept(s) && Enabled(s, w)
    ensures Where(Step(suite, s, w), x) == Where(s, x)
  {
    hide Count, Times;
    var s1 := Step(suite, s, w);
    CountMoved(s.workers, w, s1.workers[w], Holds(x));
    assert s1.workers == s.workers[w := s1.workers[w]];
    if s.workers[w].Getting? {
      TimesFirst(s.queue, x);
    } else if s.workers[w].Unlocked? {
      TimesAppend(s.done, x, s.workers[w].file);
    }
  }

  lemma WorkStaysKept(suite: Suite, s: State, w: nat)
    requires Inv(suite, s) && Enabled(s, w)
    ensures WorkKept(Step(suite, s, w))
  {
    var s1 := Step(suite, s, w);
    CountMoved(s.workers, w, s1.workers[w], Busy);
    CountMoved(s.workers, w, s1.workers[w], Retired);
  }

  lemma ResultsStayKept(suite: Suite, s: State, w: nat)
    requires ResultsKept(suite, s) && Enabled(s, w)
    ensures ResultsKept(suite, Step(suite, s, w))
  {
    var s1 := Step(suite, s, w);
    forall x: Name
      ensures Times(FileNames(s1.results), x) == Times(s1.done, x) + Count(s1.workers, HasReported(x))
    {
      assert Times(FileNames(s.results), x) == Times(s.done, x) + Count(s.workers, HasReported(x));
      ResultStaysKept(suite, s, w, x);
    }
  }

  lemma ResultStaysKept(suite: Suite, s: State, w: nat, x: Name)
    requires Enabled(s, w)
    requires Times(FileNames(s.results), x) == Times(s.done, x) + Count(s.workers, HasReported(x))
    ensures
      var s1 := Step(suite, s, w);
      Times(FileNames(s1.results), x) == Times(s1.done, x) + Count(s1.workers, HasReported(x))
  {
    hide Count, FileNames, Times, StatusOf;
    var s1 := Step(suite, s, w);
    var pc, pc1 := s.workers[w], s1.workers[w];
    assert Count(s1.workers, HasReported(x))
        == Count(s.workers, HasReported(x)) - (if Is(pc, HasReported(x)) then 1 else 0)
           + (if Is(pc1, HasReported(x)) then 1 else 0) by {
      assert s1.workers == s.workers[w := pc1];
      CountMoved(s.workers, w, pc1, HasReported(x));
    }
    if pc.Running? {
      FileNamesAppend(s.results, TestResult(pc.file, StatusOf(suite, pc.file)));
      TimesAppend(FileNames(s.results), x, pc.file);
    } else if pc.Unlocked? {
      TimesAppend(s.done, x, pc.file);
    }
  }

  lemma CounterStaysKept(suite: Suite, s: State, w: nat)
    requires CounterKept(s) && Enabled(s, w)
    ensures CounterKept(Step(suite, s, w))
  {
    var s1 := Step(suite, s, w);
    CountMoved(s.workers, w, s1.workers[w], Counted);
    forall v | 0 <= v < |s.workers|
      ensures Critical(s1.workers[v]) <==> s1.lock == Some(v)
      ensures s1.workers[v].Loaded? ==> s1.workers[v].value == s1.counter
    {
      LockStaysKept(suite, s, w, v);
    }
  }

  /** Only the holder of the lock touches the counter. */
  lemma LockStaysKept(suite: Suite, s: State, w: nat, v: nat)
    requires CounterKept(s) && Enabled(s, w) && v < |s.workers|
    ensures
      var s1 := Step(suite, s, w);
      (Critical(s1.workers[v]) <==> s1.lock == Some(v))
      && (s1.workers[v].Loaded? ==> s1.workers[v].value == s1.counter)
  {
    hide Count;
    assert Critical(s.workers[v]) <==> s.lock == Some(v);
    assert Critical(s.workers[w]) <==> s.lock == Some(w);
  }

  /** Every interleaving keeps the invariant. */
  lemma {:induction false} ReachedInv(suite: Suite, schedule: seq<nat>, s: State)
    requires Reaches(suite, schedule, s)
    ensures Inv(suite, s)
    decreases |schedule|
  {
    if schedule == [] {
      InitialInv(suite);
    } else {
      var n := |schedule| - 1;
      var s0 :| Reaches(suite, schedule[..n], s0) && Enabled(s0, schedule[n]) && s == Step(suite, s0, schedule[n]);
      ReachedInv(suite, schedule[..n], s0);
      ItemsStayKept(suite, s0, schedule[n]);
      WorkStaysKept(suite, s0, schedule[n]);
      ResultsStayKept(suite, s0, schedule[n]);
      CounterStaysKept(suite, s0, schedule[n]);
    }
  }

  // ---------- at the join ----------

  lemma {:induction false} NobodyBusy(ws: seq<Worker>, t: Trait)
    requires Count(ws, Busy) == 0
    ensures t != Retired ==> Count(ws, t) == 0
    ensures forall w :: 0 <= w < |ws| ==> !Is(ws[w], Busy)
  {
    if ws != [] {
      NobodyBusy(ws[..|ws| - 1], t);
    }
  }

  lemma {:induction false} RetiredWithin(ws: seq<Worker>)
    ensures Count(ws, Retired) <= |ws|
    ensures Count(ws, Retired) == |ws| ==> forall w :: 0 <= w < |ws| ==> ws[w].Finished?
  {
    if ws != [] {
      RetiredWithin(ws[..|ws| - 1]);
    }
  }

  lemma {:induction false} StopsCount(n: nat, x: Name)
    ensures Times(Stops(n), x) == if x == STOP then n else 0
  {
    if n > 0 {
      StopsCount(n - 1, x);
      assert Stops(n) == Stops(n - 1) + [STOP];
    }
  }

  lemma ItemCount(suite: Suite, x: Name)
    ensures Times(Items(suite), x) == Times(suite.files, x) + if x == STOP then suite.nthreads else 0
  {
    StopsCount(suite.nthreads, x);
  }

  lemma SameTimes(a: seq<Name>, b: seq<Name>)
    requires forall x: Name :: Times(a, x) == Times(b, x)
    ensures multiset(a) == multiset(b) && |a| == |b|
  {
    forall x: Name
      ensures multiset(a)[x] == multiset(b)[x]
    {
      assert Times(a, x) == Times(b, x);
    }
    assert |multiset(a)| == |a| && |multiset(b)| == |b|;
  }

  lemma JoinedItem(suite: Suite, s: State, x: Name)
    requires Inv(suite, s) && Joined(s)
    ensures s.queue == []
    ensures Times(s.done, x) == Times(FileNames(s.results), x)
    ensures Times(suite.files, x) + (if x == STOP then suite.nthreads else 0)
         == Times(s.done, x) + (if x == STOP then s.stopsDone else 0)
  {
    ItemCount(suite, x);
    NobodyBusy(s.workers, Holds(x));
    NobodyBusy(s.workers, HasReported(x));
    assert Times(Items(suite), x) == Where(s, x);
    assert Times(FileNames(s.results), x) == Times(s.done, x) + Count(s.workers, HasReported(x));
  }

  /** In every interleaving, when join() returns: the tests marked done are the tests,
      each has queued exactly one result with its own status, the counter is their
      number, every worker has finished on exactly one STOP, and nothing is left. */
  lemma {:induction false} JoinMeansDone(suite: Suite, s: State)
    requires Reachable(suite, s) && Joined(s)
    ensures multiset(s.done) == multiset(suite.files) && s.stopsDone == suite.nthreads && !s.failed
    ensures multiset(FileNames(s.results)) == multiset(suite.files) && |s.results| == |suite.files|
    ensures forall i :: 0 <= i < |s.results| ==>
        && (suite.attempt(s.results[i].file).Skipped? ==> s.results[i].status == Skip)
        && (suite.attempt(s.results[i].file).Raised? ==> s.results[i].status == Runfail)
        && (suite.attempt(s.results[i].file).Ran? ==>
              s.results[i].status == suite.attempt(s.results[i].file).status)
    ensures s.counter == |suite.files| && s.lock.None? && s.queue == []
    ensures |s.workers| == suite.nthreads && forall w :: 0 <= w < |s.workers| ==> s.workers[w].Finished?
    ensures STOP !in suite.files
  {
    var schedule :| Reaches(suite, schedule, s);
    ReachedInv(suite, schedule, s);
    RetiredWithin(s.workers);
    JoinedItem(suite, s, STOP);
    assert Times(s.done, STOP) == 0;
    hide Reaches, Count, ItemsKept;
    forall x: Name
      ensures Times(s.done, x) == Times(suite.files, x) == Times(FileNames(s.results), x)
    {
      JoinedItem(suite, s, x);
    }
    SameTimes(s.done, suite.files);
    SameTimes(FileNames(s.results), suite.files);
    JoinedCounter(suite, s);
  }

  lemma JoinedCounter(suite: Suite, s: State)
    requires Inv(suite, s) && Joined(s)
    ensures s.counter == |s.done|
    ensures s.lock.None?
  {
    NobodyBusy(s.workers, Counted);
    assert s.lock.None? || !Is(s.workers[s.lock.value], Busy);
  }

  // ---------- the join is reached ----------

  /** How many more steps a worker has to take with what it holds. */
  function Ahead(w: Worker): nat
  {
    match w
    case Getting => 0
    case Running(_) => 7
    case Reported(_) => 6
    case Locked(_) => 5
    case Loaded(_, _) => 4
    case Stored(_) => 3
    case Unlocked(_) => 2
    case Stopping => 1
    case Finished => 0
  }

  function AheadOf(ws: seq<Worker>): nat
  {
    if ws == [] then 0 else AheadOf(ws[..|ws| - 1]) + Ahead(ws[|ws| - 1])
  }

  function StepsLeft(s: State): nat
  {
    8 * |s.queue| + AheadOf(s.workers)
  }

  lemma {:induction false} AheadMoved(ws: seq<Worker>, w: nat, pc: Worker)
    requires w < |ws|
    ensures AheadOf(ws[w := pc]) == AheadOf(ws) - Ahead(ws[w]) + Ahead(pc)
  {
    var n := |ws| - 1;
    if w < n {
      AheadMoved(ws[..n], w, pc);
      assert ws[w := pc][..n] == ws[..n][w := pc];
    } else {
      assert ws[w := pc][..n] == ws[..n];
    }
  }

  lemma StepShortens(suite: Suite, s: State, w: nat)
    requires Enabled(s, w)
    ensures StepsLeft(Step(suite, s, w)) < StepsLeft(s)
  {
    AheadMoved(s.workers, w, Step(suite, s, w).workers[w]);
  }

  /** No schedule goes on for more than eight steps for each enqueued item. */
  lemma {:induction false} SchedulesAreShort(suite: Suite, schedule: seq<nat>, s: State)
    requires Reaches(suite, schedule, s)
    ensures |schedule| + StepsLeft(s) <= 8 * |Items(suite)|
    decreases |schedule|
  {
    hide Enabled, Step;
    if schedule == [] {
      NothingAhead(suite.nthreads);
    } else {
      var n := |schedule| - 1;
      var s0 :| Reaches(suite, schedule[..n], s0) && Enabled(s0, schedule[n]) && s == Step(suite, s0, schedule[n]);
      SchedulesAreShort(suite, schedule[..n], s0);
      StepShortens(suite, s0, schedule[n]);
    }
  }

  lemma {:induction false} NothingAhead(n: nat)
    ensures AheadOf(seq(n, _ => Getting)) == 0
  {
    if n > 0 {
      NothingAhead(n - 1);
      assert seq(n, _ => Getting)[..n - 1] == seq(n - 1, _ => Getting);
    }
  }

  lemma {:induction false} SomeoneIs(ws: seq<Worker>, t: Trait) returns (w: nat)
    requires Count(ws, t) > 0
    ensures w < |ws| && Is(ws[w], t)
  {
    var n := |ws| - 1;
    if Is(ws[n], t) {
      w := n;
    } else {
      w := SomeoneIs(ws[..n], t);
    }
  }

  lemma {:induction false} AllFinished(ws: seq<Worker>)
    requires forall w :: 0 <= w < |ws| ==> ws[w].Finished?
    ensures Count(ws, Retired) == |ws| && forall x: Name :: Count(ws, Holds(x)) == 0
  {
    if ws != [] {
      AllFinished(ws[..|ws| - 1]);
    }
  }

  /** The last STOP is the last item, so it cannot be done while the queue holds anything. */
  lemma QueueEndsInStop(suite: Suite, s: State)
    requires Inv(suite, s) && s.queue != [] && suite.nthreads > 0
    ensures Times(s.queue, STOP) > 0
  {
    var taken :| 0 <= taken <= |Items(suite)| && s.queue == Items(suite)[taken..];
    assert s.queue[|s.queue| - 1] == Items(suite)[|Items(suite)| - 1] == STOP;
  }

  lemma AllStopped(suite: Suite, s: State)
    requires Inv(suite, s) && suite.nthreads > 0 && STOP !in suite.files
    requires forall w :: 0 <= w < |s.workers| ==> s.workers[w].Finished?
    ensures s.queue == []
  {
    AllFinished(s.workers);
    ItemCount(suite, STOP);
    assert Times(s.queue, STOP) == 0 by {
      assert Times(Items(suite), STOP) == Where(s, STOP);
    }
    if s.queue != [] {
      QueueEndsInStop(suite, s);
    }
  }

  /** No deadlock: until join() returns some worker can step, provided no test is
      itself called STOP. */
  lemma {:induction false} SomeoneCanStep(suite: Suite, s: State) returns (w: nat)
    requires Reachable(suite, s) && !Joined(s) && suite.nthreads > 0 && STOP !in suite.files
    ensures Enabled(s, w)
  {
    var schedule :| Reaches(suite, schedule, s);
    ReachedInv(suite, schedule, s);
    if Count(s.workers, Busy) > 0 {
      w := SomeoneIs(s.workers, Busy);
      if s.workers[w].Reported? && s.lock.Some? {
        w := s.lock.value;
      }
    } else if w0 :| 0 <= w0 < |s.workers| && s.workers[w0].Getting? {
      w := w0;
    } else {
      NobodyBusy(s.workers, Busy);
      AllStopped(suite, s);
      assert false;
    }
  }

  /** join() can return if and only if no test is called STOP, which the workers would
      take for the end of the queue. */
  lemma {:induction false} JoinReturnsIffNoTestIsStop(suite: Suite)
    requires suite.nthreads > 0
    ensures (exists s :: Reachable(suite, s) && Joined(s)) <==> STOP !in suite.files
  {
    if STOP !in suite.files {
      assert Reaches(suite, [], Initial(suite));
      RunOn(suite, [], Initial(suite));
    }
    forall s | Reachable(suite, s) && Joined(s)
      ensures STOP !in suite.files
    {
      JoinMeansDone(suite, s);
    }
  }

  /** Whatever has been scheduled so far, the workers can go on until join() returns. */
  lemma {:induction false} RunOn(suite: Suite, schedule: seq<nat>, s: State)
    requires Reaches(suite, schedule, s) && suite.nthreads > 0 && STOP !in suite.files
    ensures exists s1 :: Reachable(suite, s1) && Joined(s1)
    decreases StepsLeft(s)
  {
    hide Enabled, Step, StepsLeft;
    assert Reachable(suite, s);
    if !Joined(s) {
      var w := SomeoneCanStep(suite, s);
      StepReaches(suite, schedule, s, w);
      StepShortens(suite, s, w);
      RunOn(suite, schedule + [w], Step(suite, s, w));
    }
  }

  /** A whole run under any scheduler: set up, wait in join(), collect one result per
      test.  It ends, no get() blocks, and every test is accounted for once. */
  method RunTests(suite: Suite, choose: State -> nat) returns (results: seq<TestResult>, counter: nat)
    requires suite.nthreads > 0 && STOP !in suite.files
    requires forall s :: Reachable(suite, s) && !Joined(s) ==> Enabled(s, choose(s))
    ensures multiset(FileNames(results)) == multiset(suite.files) && counter == |results| == |suite.files|
    ensures forall f :: f in suite.files && suite.attempt(f).Skipped? ==> TestResult(f, Skip) in results
    ensures forall f :: f in suite.files && suite.attempt(f).Raised? ==> TestResult(f, Runfail) in results
    ensures forall f :: f in suite.files && suite.attempt(f).Ran? ==> TestResult(f, suite.attempt(f).status) in results
  {
    var s := SetUp(suite);
    ghost var schedule: seq<nat> := [];
    assert Reaches(suite, schedule, s);
    while !Joined(s)
      invariant Reaches(suite, schedule, s)
      decreases StepsLeft(s)
    {
      var w := choose(s);
      assert Reachable(suite, s);
      StepShortens(suite, s, w);
      StepReaches(suite, schedule, s, w);
      schedule := schedule + [w];
      s := Step(suite, s, w);
    }
    assert Reachable(suite, s);
    JoinMeansDone(suite, s);
    var qret := s.results;
    results, counter := [], s.counter;
    for i := 0 to |suite.files|
      invariant qret == s.results[i..] && results == s.results[..i]
    {
      results := results + [qret[0]];
      qret := qret[1..];
    }
    assert results == s.results;
    forall f | f in suite.files
      ensures TestResult(f, StatusOf(suite, f)) in results
    {
      HasItsResult(suite, s, f);
    }
  }

  lemma HasItsResult(suite: Suite, s: State, f: Name)
    requires multiset(FileNames(s.results)) == multiset(suite.files) && f in suite.files
    requires forall i :: 0 <= i < |s.results| ==> s.results[i].status == StatusOf(suite, s.results[i].file)
    ensures TestResult(f, StatusOf(suite, f)) in s.results
  {
    assert f in multiset(FileNames(s.results));
    var i :| 0 <= i < |FileNames(s.results)| && FileNames(s.results)[i] == f;
    FileNamesAre(s.results, i);
  }

  lemma StepReaches(suite: Suite, schedule: seq<nat>, s: State, w: nat)
    requires Reaches(suite, schedule, s) && Enabled(s, w)
    ensures Reaches(suite, schedule + [w], Step(suite, s, w))
  {
    assert (schedule + [w])[..|schedule|] == schedule;
  }
}
