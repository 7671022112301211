/** The parallel search as a machine: the producer and all workers, interleaved, with the bounded
  * queue between them.
  */
module SearchProtocol {
  import opened Options
  import opened SearchQueue

  // ----- The machine -----

  datatype Elem = PathNo(i: nat) | Sentinel

  datatype Phase = Waiting | Holding(e: Elem) | Marking(stop: bool) | Flushing | Exited

  /** `got` is a history: the places in the stream this worker has taken. */
  datatype Worker = Worker(phase: Phase, count: nat, passed: nat, got: seq<nat>)

  datatype Producer = Putting | Joining | Finished

  datatype Search = Search(paths: seq<Path>, numWorkers: nat, qsize: int) {
    function Total(): nat { |paths| + numWorkers }

    /** The stream the producer puts: every path, then one sentinel per worker. */
    function At(k: nat): Elem { if k < |paths| then PathNo(k) else Sentinel }
  }

  datatype State = State(
    queue: seq<Elem>, put: nat, taken: nat, unfinished: int,
    producer: Producer, workers: seq<Worker>,
    statWorkers: nat, statItems: nat, statPassed: nat)

  function Init(c: Search): State {
    State([], 0, 0, 0, Putting, seq(c.numWorkers, _ => Worker(Waiting, 0, 0, [])), 0, 0, 0)
  }

  datatype Step = Put | StartJoin | JoinReturns | Get(w: nat) | Process(w: nat) | TaskDone(w: nat) | Flush(w: nat)

  predicate Enabled(c: Search, s: State, step: Step) {
    match step
    case Put => s.producer.Putting? && s.put < c.Total() && (c.qsize <= 0 || |s.queue| < c.qsize)
    case StartJoin => s.producer.Putting? && s.put == c.Total()
    case JoinReturns => s.producer.Joining? && s.unfinished == 0
    case Get(w) => w < |s.workers| && s.workers[w].phase.Waiting? && s.queue != []
    case Process(w) => w < |s.workers| && s.workers[w].phase.Holding?
    case TaskDone(w) => w < |s.workers| && s.workers[w].phase.Marking?
    case Flush(w) => w < |s.workers| && s.workers[w].phase.Flushing?
  }

  /** The worker after dealing with the element it holds. */
  function Dealt(c: Search, w: Worker): Worker
    requires w.phase.Holding?
  {
    match w.phase.e
    case Sentinel => w.(phase := Marking(true))
    case PathNo(i) =>
      if i < |c.paths| then
        w.(phase := Marking(false), count := w.count + Counts(c.paths[i]), passed := w.passed + Passes(c.paths[i]))
      else w.(phase := Marking(false))
  }

  function Do(c: Search, s: State, step: Step): State
    requires Enabled(c, s, step)
  {
    match step
    case Put => s.(queue := s.queue + [c.At(s.put)], put := s.put + 1, unfinished := s.unfinished + 1)
    case StartJoin => s.(producer := Joining)
    case JoinReturns => s.(producer := Finished)
    case Get(w) =>
      s.(queue := s.queue[1..], taken := s.taken + 1,
         workers := s.workers[w := s.workers[w].(phase := Holding(s.queue[0]), got := s.workers[w].got + [s.taken])])
    case Process(w) => s.(workers := s.workers[w := Dealt(c, s.workers[w])])
    case TaskDone(w) =>
      s.(unfinished := s.unfinished - 1,
         workers := s.workers[w := s.workers[w].(phase := if s.workers[w].phase.stop then Flushing else Waiting)])
    case Flush(w) =>
      s.(statWorkers := s.statWorkers + 1, statItems := s.statItems + s.workers[w].count,
         statPassed := s.statPassed + s.workers[w].passed,
         workers := s.workers[w := s.workers[w].(phase := Exited)])
  }

  // ----- Sums over the workers -----

  function Part(c: Search, m: Quantity, w: Worker): nat {
    match m
    case Unmarked => if w.phase.Holding? || w.phase.Marking? then 1 else 0
    case Items => if w.phase.Exited? then 0 else w.count + InHand(c, m, w)
    case PassedItems => if w.phase.Exited? then 0 else w.passed + InHand(c, m, w)
    case Sentinels =>
      if w.phase.Flushing? || w.phase.Exited? || w.phase == Holding(Sentinel) || w.phase == Marking(true) then 1 else 0
    case Exits => if w.phase.Exited? then 1 else 0
    case Steps =>
      match w.phase
      case Holding(_) => 3
      case Marking(_) => 2
      case Waiting => 1
      case Flushing => 1
      case Exited => 0
  }

  function InHand(c: Search, m: Quantity, w: Worker): nat {
    if w.phase.Holding? && w.phase.e.PathNo? && w.phase.e.i < |c.paths| then
      if m == Items then Counts(c.paths[w.phase.e.i]) else Passes(c.paths[w.phase.e.i])
    else 0
  }

  function Sum(c: Search, m: Quantity, ws: seq<Worker>): nat {
    if ws == [] then 0 else Part(c, m, ws[0]) + Sum(c, m, ws[1..])
  }

  lemma {:induction false} SumUpdate(c: Search, m: Quantity, ws: seq<Worker>, w: nat, x: Worker)
    requires w < |ws|
    ensures Sum(c, m, ws[w := x]) == Sum(c, m, ws) - Part(c, m, ws[w]) + Part(c, m, x)
  {
    if w > 0 {
      assert ws[w := x][1..] == ws[1..][w - 1 := x];
      SumUpdate(c, m, ws[1..], w - 1, x);
    } else {
      assert ws[w := x][1..] == ws[1..];
    }
  }

  /** A sum of parts that are 0 or 1, against the number of workers. */
  lemma {:induction false} SumOfOnes(c: Search, m: Quantity, ws: seq<Worker>)
    requires m == Sentinels || m == Exits || m == Unmarked
    ensures Sum(c, m, ws) <= |ws|
    ensures Sum(c, m, ws) == |ws| <==> forall i :: 0 <= i < |ws| ==> Part(c, m, ws[i]) == 1
    ensures Sum(c, m, ws) == 0 <==> forall i :: 0 <= i < |ws| ==> Part(c, m, ws[i]) == 0
  {
    if ws != [] {
      SumOfOnes(c, m, ws[1..]);
      assert forall i :: 1 <= i < |ws| ==> ws[i] == ws[1..][i - 1];
    }
  }

  /** A sum of equal parts. */
  lemma {:induction false} SumOfEqual(c: Search, m: Quantity, ws: seq<Worker>, part: nat)
    requires forall i :: 0 <= i < |ws| ==> Part(c, m, ws[i]) == part
    ensures Sum(c, m, ws) == |ws| * part
  {
    if ws != [] {
      SumOfEqual(c, m, ws[1..], part);
    }
  }

  function Least(a: nat, b: nat): nat { if a <= b then a else b }

  // ----- The invariant -----

  /** The queue is the stretch of the stream that is put and not taken: first in, first out. */
  predicate QueueInv(c: Search, s: State) {
    && s.taken <= s.put <= c.Total()
    && |s.queue| == s.put - s.taken
    && (forall j :: 0 <= j < |s.queue| ==> s.queue[j] == c.At(s.taken + j))
    && (!s.producer.Putting? ==> s.put == c.Total())
    && (c.qsize > 0 ==> |s.queue| <= c.qsize)
  }

  predicate CountInv(c: Search, s: State) {
    && |s.workers| == c.numWorkers
    && s.unfinished == |s.queue| + Sum(c, Unmarked, s.workers)
    && Sum(c, Sentinels, s.workers) == s.taken - Least(s.taken, |c.paths|)
    && (s.producer.Finished? ==> s.unfinished == 0)
    && s.statWorkers == Sum(c, Exits, s.workers)
    && s.statItems + Sum(c, Items, s.workers) == Tally(Items, c.paths, Least(s.taken, |c.paths|))
    && s.statPassed + Sum(c, PassedItems, s.workers) == Tally(PassedItems, c.paths, Least(s.taken, |c.paths|))
  }

  predicate Has(s: State, w: int, j: nat) {
    0 <= w < |s.workers| && j in s.workers[w].got
  }

  ghost predicate Owned(s: State, j: nat) {
    exists w :: Has(s, w, j)
  }

  /** Each place of the stream taken so far is with exactly one worker, once. */
  ghost predicate TakenInv(s: State) {
    && (forall j: nat :: j < s.taken ==> Owned(s, j))
    && (forall w, j: nat :: Has(s, w, j) ==> j < s.taken)
    && (forall w, x, j: nat :: Has(s, w, j) && Has(s, x, j) ==> w == x)
    && (forall w, a, b :: 0 <= w < |s.workers| && 0 <= a < b < |s.workers[w].got| ==> s.workers[w].got[a] < s.workers[w].got[b])
  }

  /** A worker that holds an element holds the last one it took; one that has taken a sentinel
    * took it last. */
  predicate HeldInv(c: Search, s: State) {
    forall w :: 0 <= w < |s.workers| ==> Consistent(c, s.workers[w])
  }

  predicate Consistent(c: Search, w: Worker) {
    && (w.phase.Holding? ==> |w.got| > 0 && w.phase.e == c.At(w.got[|w.got| - 1]))
    && (forall k :: 0 <= k < |w.got| ==>
         (w.got[k] >= |c.paths| <==> k == |w.got| - 1 && Part(c, Sentinels, w) == 1))
    && (Part(c, Sentinels, w) == 1 ==> |w.got| > 0)
  }

  ghost predicate Inv(c: Search, s: State) {
    QueueInv(c, s) && CountInv(c, s) && TakenInv(s) && HeldInv(c, s)
  }

  lemma InitInv(c: Search)
    ensures Inv(c, Init(c))
  {
    var ws := Init(c).workers;
    SumOfEqual(c, Unmarked, ws, 0);
    SumOfEqual(c, Items, ws, 0);
    SumOfEqual(c, PassedItems, ws, 0);
    SumOfEqual(c, Sentinels, ws, 0);
    SumOfEqual(c, Exits, ws, 0);
  }

  lemma StepKeepsInv(c: Search, s: State, step: Step)
    requires Inv(c, s) && Enabled(c, s, step)
    ensures Inv(c, Do(c, s, step))
  {
    StepKeepsQueue(c, s, step);
    StepKeepsCount(c, s, step);
    StepKeepsTaken(c, s, step);
    StepKeepsHeld(c, s, step);
  }

  lemma StepKeepsQueue(c: Search, s: State, step: Step)
    requires QueueInv(c, s) && Enabled(c, s, step)
    ensures QueueInv(c, Do(c, s, step))
  {
  }

  lemma StepKeepsCount(c: Search, s: State, step: Step)
    requires Inv(c, s) && Enabled(c, s, step)
    ensures CountInv(c, Do(c, s, step))
  {
    match step
    case Get(w) => GetKeepsCount(c, s, w);
    case Process(w) => ProcessKeepsCount(c, s, w);
    case TaskDone(w) => TaskDoneKeepsCount(c, s, w);
    case Flush(w) => FlushKeepsCount(c, s, w);
    case _ =>
  }

  lemma SumsUpdate(c: Search, ws: seq<Worker>, w: nat, x: Worker)
    requires w < |ws|
    ensures forall m :: Sum(c, m, ws[w := x]) == Sum(c, m, ws) - Part(c, m, ws[w]) + Part(c, m, x)
  {
    forall m
      ensures Sum(c, m, ws[w := x]) == Sum(c, m, ws) - Part(c, m, ws[w]) + Part(c, m, x)
    {
      SumUpdate(c, m, ws, w, x);
    }
  }

  lemma GetKeepsCount(c: Search, s: State, w: nat)
    requires Inv(c, s) && Enabled(c, s, Get(w))
    ensures CountInv(c, Do(c, s, Get(w)))
  {
    SumsUpdate(c, s.workers, w, Do(c, s, Get(w)).workers[w]);
    assert s.queue[0] == c.At(s.taken);
  }

  lemma ProcessKeepsCount(c: Search, s: State, w: nat)
    requires Inv(c, s) && Enabled(c, s, Process(w))
    ensures CountInv(c, Do(c, s, Process(w)))
  {
    SumsUpdate(c, s.workers, w, Dealt(c, s.workers[w]));
  }

  lemma TaskDoneKeepsCount(c: Search, s: State, w: nat)
    requires Inv(c, s) && Enabled(c, s, TaskDone(w))
    ensures CountInv(c, Do(c, s, TaskDone(w)))
  {
    SumsUpdate(c, s.workers, w, Do(c, s, TaskDone(w)).workers[w]);
  }

  lemma FlushKeepsCount(c: Search, s: State, w: nat)
    requires Inv(c, s) && Enabled(c, s, Flush(w))
    ensures CountInv(c, Do(c, s, Flush(w)))
  {
    SumsUpdate(c, s.workers, w, Do(c, s, Flush(w)).workers[w]);
  }

  lemma StepKeepsTaken(c: Search, s: State, step: Step)
    requires TakenInv(s) && Enabled(c, s, step)
    ensures TakenInv(Do(c, s, step))
  {
    if step.Get? {
      GetKeepsTaken(c, s, step.w);
    } else {
      SameGotKeepsTaken(s, Do(c, s, step));
    }
  }

  lemma SameGotKeepsTaken(s: State, t: State)
    requires TakenInv(s) && t.taken == s.taken && |t.workers| == |s.workers|
    requires forall w :: 0 <= w < |s.workers| ==> t.workers[w].got == s.workers[w].got
    ensures TakenInv(t)
  {
    forall j: nat | j < t.taken
      ensures Owned(t, j)
    {
      assert Owned(s, j);
      var w :| Has(s, w, j);
      assert Has(t, w, j);
    }
    assert forall w, j: nat :: Has(t, w, j) ==> Has(s, w, j);
  }

  lemma GetKeepsTaken(c: Search, s: State, w: nat)
    requires TakenInv(s) && Enabled(c, s, Get(w))
    ensures TakenInv(Do(c, s, Get(w)))
  {
    var t := Do(c, s, Get(w));
    assert Has(t, w, s.taken);
    forall j: nat | j < t.taken
      ensures Owned(t, j)
    {
      if j < s.taken {
        assert Owned(s, j);
        var x :| Has(s, x, j);
        assert Has(t, x, j);
      }
    }
    assert forall x, j: nat :: Has(t, x, j) ==> Has(s, x, j) || (x == w && j == s.taken);
    var got := s.workers[w].got;
    assert forall a :: 0 <= a < |got| ==> Has(s, w, got[a]);
  }

  lemma StepKeepsHeld(c: Search, s: State, step: Step)
    requires QueueInv(c, s) && HeldInv(c, s) && Enabled(c, s, step)
    ensures HeldInv(c, Do(c, s, step))
  {
    var t := Do(c, s, step);
    if step.Get? || step.Process? || step.TaskDone? || step.Flush? {
      assert Consistent(c, s.workers[step.w]);
      assert Consistent(c, t.workers[step.w]);
    }
  }

  // ----- Whole runs -----

  /** Reached from the start by n steps of any of the processes. */
  ghost predicate Reachable(c: Search, s: State, n: nat)
    decreases n
  {
    if n == 0 then s == Init(c)
    else exists p, step :: Reachable(c, p, n - 1) && Leads(c, p, step, s)
  }

  ghost predicate Leads(c: Search, p: State, step: Step, s: State) {
    Enabled(c, p, step) && s == Do(c, p, step)
  }

  lemma {:induction false} ReachableInv(c: Search, s: State, n: nat)
    requires Reachable(c, s, n)
    ensures Inv(c, s)
    ensures Remaining(c, s) == RunLength(c) - n
    decreases n
  {
    if n == 0 {
      InitInv(c);
      SumOfEqual(c, Steps, s.workers, 1);
    } else {
      var p, step :| Reachable(c, p, n - 1) && Leads(c, p, step, s);
      ReachableInv(c, p, n - 1);
      StepKeepsInv(c, p, step);
      StepCountsDown(c, p, step);
    }
  }

  /** A worker can only take a sentinel when no path is left in the queue. */
  lemma SentinelAfterPaths(c: Search, s: State, n: nat, w: nat)
    requires Reachable(c, s, n) && Enabled(c, s, Get(w)) && s.queue[0] == Sentinel
    ensures forall e <- s.queue :: e == Sentinel
  {
    ReachableInv(c, s, n);
  }

  /** Each place of the stream taken is with exactly one worker, and a worker that has taken a
    * sentinel has taken nothing after it. */
  lemma EachPathOnce(c: Search, s: State, n: nat, j: nat)
    requires Reachable(c, s, n) && j < s.taken
    ensures exists w :: Has(s, w, j) && forall x :: Has(s, x, j) ==> x == w
    ensures forall w, k :: 0 <= w < |s.workers| && 0 <= k < |s.workers[w].got| && s.workers[w].got[k] >= |c.paths| ==>
      k == |s.workers[w].got| - 1
  {
    ReachableInv(c, s, n);
    assert Owned(s, j);
    forall w, k | 0 <= w < |s.workers| && 0 <= k < |s.workers[w].got| && s.workers[w].got[k] >= |c.paths|
      ensures k == |s.workers[w].got| - 1
    {
      assert Consistent(c, s.workers[w]);
    }
  }

  /** First in, first out, and never more than the bound: the queue holds the paths and sentinels that
    * were put and not taken, in the order of the stream, one sentinel per worker behind all paths. */
  lemma QueueIsStretch(c: Search, s: State, n: nat)
    requires Reachable(c, s, n)
    ensures c.qsize > 0 ==> |s.queue| <= c.qsize
    ensures s.taken <= s.put <= |c.paths| + c.numWorkers && |s.queue| == s.put - s.taken
    ensures forall j :: 0 <= j < |s.queue| ==>
      s.queue[j] == if s.taken + j < |c.paths| then PathNo(s.taken + j) else Sentinel
  {
    ReachableInv(c, s, n);
  }

  /** `join` returns only when every path has been dealt with and marked done and each worker has
    * taken exactly one sentinel and marked that as well. */
  lemma JoinMeansProcessed(c: Search, s: State, n: nat)
    requires Reachable(c, s, n) && s.producer.Finished?
    ensures s.taken == s.put == c.Total() && s.queue == []
    ensures forall i :: 0 <= i < |s.workers| ==> s.workers[i].phase.Flushing? || s.workers[i].phase.Exited?
    ensures forall i :: 0 <= i < |s.workers| ==> TookOneSentinel(c, s.workers[i])
    ensures s.statItems + Sum(c, Items, s.workers) == |NotRaised(c.paths, |c.paths|)|
    ensures s.statPassed + Sum(c, PassedItems, s.workers) == |Accepted(c.paths, |c.paths|)|
  {
    TallyCounts(c.paths, |c.paths|);
    ReachableInv(c, s, n);
    SumOfOnes(c, Unmarked, s.workers);
    SumOfOnes(c, Sentinels, s.workers);
    forall i | 0 <= i < |s.workers|
      ensures s.workers[i].phase.Flushing? || s.workers[i].phase.Exited?
      ensures TookOneSentinel(c, s.workers[i])
    {
      assert Part(c, Unmarked, s.workers[i]) == 0 && Part(c, Sentinels, s.workers[i]) == 1;
      assert Consistent(c, s.workers[i]);
    }
  }

  /** The last thing this worker took is a sentinel, everything before it a path. */
  predicate TookOneSentinel(c: Search, w: Worker) {
    && |w.got| > 0 && c.At(w.got[|w.got| - 1]) == Sentinel
    && forall k :: 0 <= k < |w.got| - 1 ==> c.At(w.got[k]).PathNo?
  }

  /** Once all workers have exited, the statistics count every path that did not raise, and every
    * path whose whole chain accepted, exactly once. */
  lemma StatisticsComplete(c: Search, s: State, n: nat)
    requires Reachable(c, s, n) && c.numWorkers > 0 && AllExited(s)
    ensures s.statWorkers == c.numWorkers
    ensures s.statItems == |NotRaised(c.paths, |c.paths|)|
    ensures s.statPassed == |Accepted(c.paths, |c.paths|)|
  {
    TallyCounts(c.paths, |c.paths|);
    ReachableInv(c, s, n);
    SumOfOnes(c, Exits, s.workers);
    SumOfOnes(c, Sentinels, s.workers);
    SumOfEqual(c, Items, s.workers, 0);
    SumOfEqual(c, PassedItems, s.workers, 0);
  }

  predicate AllExited(s: State) {
    forall i :: 0 <= i < |s.workers| ==> s.workers[i].phase.Exited?
  }

  // ----- Progress -----

  /** Steps left: an element costs four (put, taken, dealt with, marked), a worker one flush, and
    * the producer two. */
  function Remaining(c: Search, s: State): int {
    4 * (c.Total() - s.put) + 3 * |s.queue| + Sum(c, Steps, s.workers)
      + (match s.producer case Putting => 2 case Joining => 1 case Finished => 0)
  }

  function RunLength(c: Search): nat { 4 * c.Total() + c.numWorkers + 2 }

  lemma StepCountsDown(c: Search, s: State, step: Step)
    requires Enabled(c, s, step)
    ensures Remaining(c, Do(c, s, step)) == Remaining(c, s) - 1
  {
    var t := Do(c, s, step);
    if step.Get? || step.Process? || step.TaskDone? || step.Flush? {
      SumUpdate(c, Steps, s.workers, step.w, t.workers[step.w]);
    }
  }

  /** The search is over: the producer has joined and every worker has exited. */
  predicate Over(s: State) {
    s.producer.Finished? && AllExited(s)
  }

  ghost predicate Stuck(c: Search, s: State) {
    forall step :: !Enabled(c, s, step)
  }

  /** No deadlock, exactly: a state without an enabled step is the end of the search, unless there
    * are paths but no workers, in which case the end is never reached. */
  lemma StuckIsOverIff(c: Search, s: State, n: nat)
    requires Reachable(c, s, n) && Stuck(c, s)
    ensures Over(s) <==> c.numWorkers > 0 || |c.paths| == 0
  {
    ReachableInv(c, s, n);
    if c.numWorkers > 0 || |c.paths| == 0 {
      StuckWorkersIdle(c, s);
      StuckIsOver(c, s);
    } else if s.producer.Finished? {
      PathsNeedWorkers(s);
      JoinMeansProcessed(c, s, n);
    }
  }

  lemma PathsNeedWorkers(s: State)
    requires TakenInv(s)
    ensures s.taken > 0 ==> |s.workers| > 0
  {
    assert s.taken > 0 ==> Owned(s, 0);
  }

  lemma StuckWorkersIdle(c: Search, s: State)
    requires Stuck(c, s)
    ensures forall i :: 0 <= i < |s.workers| ==> s.workers[i].phase.Exited? || (s.workers[i].phase.Waiting? && s.queue == [])
  {
    forall i | 0 <= i < |s.workers|
      ensures s.workers[i].phase.Exited? || (s.workers[i].phase.Waiting? && s.queue == [])
    {
      assert !Enabled(c, s, Get(i)) && !Enabled(c, s, Process(i)) && !Enabled(c, s, TaskDone(i)) && !Enabled(c, s, Flush(i));
    }
  }

  lemma StuckIsOver(c: Search, s: State)
    requires Inv(c, s) && Stuck(c, s) && (c.numWorkers > 0 || |c.paths| == 0)
    requires forall i :: 0 <= i < |s.workers| ==> s.workers[i].phase.Exited? || (s.workers[i].phase.Waiting? && s.queue == [])
    ensures Over(s)
  {
    SumOfOnes(c, Unmarked, s.workers);
    SumOfOnes(c, Sentinels, s.workers);
    assert s.queue == [];
    assert !Enabled(c, s, Put) && !Enabled(c, s, StartJoin) && !Enabled(c, s, JoinReturns);
    assert s.producer.Finished?;
    assert s.taken == c.Total();
    forall i | 0 <= i < |s.workers|
      ensures s.workers[i].phase.Exited?
    {
      assert Part(c, Sentinels, s.workers[i]) == 1;
    }
  }

  /** Every run with a worker takes the same number of steps, goes on until then, and ends with the
    * statistics complete. */
  lemma EveryRunEnds(c: Search, s: State, n: nat)
    requires c.numWorkers > 0 && Reachable(c, s, n)
    ensures n <= RunLength(c)
    ensures Stuck(c, s) <==> n == RunLength(c)
    ensures Stuck(c, s) ==> Over(s) && s.statWorkers == c.numWorkers
    ensures Stuck(c, s) ==> s.statItems == |NotRaised(c.paths, |c.paths|)| && s.statPassed == |Accepted(c.paths, |c.paths|)|
  {
    ReachableInv(c, s, n);
    if Stuck(c, s) {
      StuckIsOverIff(c, s, n);
      JoinMeansProcessed(c, s, n);
      StatisticsComplete(c, s, n);
      SumOfEqual(c, Steps, s.workers, 0);
    }
    if n == RunLength(c) {
      forall step
        ensures !Enabled(c, s, step)
      {
        if Enabled(c, s, step) {
          StepKeepsInv(c, s, step);
          StepCountsDown(c, s, step);
        }
      }
    }
  }
}
