/** The parallel search: one producer puts every path and then one `None` per worker into a bounded
  * joinable queue; workers take elements, run the filter chain, and add their counts to shared
  * statistics when they meet a `None`.
  */
module SearchQueue {
  import opened Options

  // ----- The filter chain on one item -----

  /** What one filter does with one item. */
  datatype Verdict = Accepts | Rejects | Raises

  datatype Outcome = Passed | Dropped | Failed

  /** A path, as far as the search is concerned: the verdict of each filter on it, in order. */
  type Path = seq<Verdict>

  function Chain(path: Path): (r: Outcome)
    ensures r == Passed <==> forall i :: 0 <= i < |path| ==> path[i] == Accepts
  {
    if path == [] then Passed
    else match path[0]
      case Accepts =>
        assert forall i :: 1 <= i < |path| ==> path[i] == path[1..][i - 1];
        Chain(path[1..])
      case Rejects => Dropped
      case Raises => Failed
  }

  /** The filters after the first one that does not accept have no say. */
  lemma {:induction false} ChainStopsEarly(path: Path, k: nat)
    requires k < |path| && path[k] != Accepts && forall i :: 0 <= i < k ==> path[i] == Accepts
    ensures Chain(path) == if path[k] == Rejects then Dropped else Failed
  {
    if k > 0 {
      assert path[1..][k - 1] == path[k];
      ChainStopsEarly(path[1..], k - 1);
    }
  }

  method RunFilters(path: Path) returns (r: Outcome)
    ensures r == Chain(path)
  {
    var passed := true;
    var i := 0;
    while i < |path| && passed
      invariant i <= |path|
      invariant passed ==> Chain(path) == Chain(path[i..])
      invariant !passed ==> Chain(path) == Dropped
    {
      if path[i].Raises? {
        return Failed;
      }
      passed := passed && path[i].Accepts?;
      i := i + 1;
    }
    return if passed then Passed else Dropped;
  }

  function Counts(path: Path): nat { if Chain(path) == Failed then 0 else 1 }

  function Passes(path: Path): nat { if Chain(path) == Passed then 1 else 0 }

  /** Quantities a worker contributes: elements taken and not yet marked done, items counted and
    * passed that are not in the statistics yet (including the item in hand), sentinels taken,
    * having exited, and steps still to go. */
  datatype Quantity = Unmarked | Items | PassedItems | Sentinels | Exits | Steps

  /** Paths among the first k that did not raise, or that passed. */
  function Tally(m: Quantity, paths: seq<Path>, k: nat): nat
    requires k <= |paths|
  {
    if k == 0 then 0
    else Tally(m, paths, k - 1) + if m == Items then Counts(paths[k - 1]) else Passes(paths[k - 1])
  }

  /** The first verdict that is not an acceptance is an exception. */
  predicate RaisesFirst(path: Path) {
    exists j :: 0 <= j < |path| && path[j] == Raises && forall i :: 0 <= i < j ==> path[i] == Accepts
  }

  predicate AllAccept(path: Path) { forall j :: 0 <= j < |path| ==> path[j] == Accepts }

  /** Which of the first k paths no filter raised on, and which all filters accepted. */
  function NotRaised(paths: seq<Path>, k: nat): set<nat> {
    set i: nat | i < k && i < |paths| && !RaisesFirst(paths[i])
  }

  function Accepted(paths: seq<Path>, k: nat): set<nat> {
    set i: nat | i < k && i < |paths| && AllAccept(paths[i])
  }

  lemma {:induction false} FailedIff(path: Path)
    ensures Chain(path) == Failed <==> RaisesFirst(path)
  {
    if path != [] && path[0] == Accepts {
      FailedIff(path[1..]);
      if j :| 0 <= j < |path| && path[j] == Raises && forall i :: 0 <= i < j ==> path[i] == Accepts {
        assert path[1..][j - 1] == Raises;
      }
      if j :| 0 <= j < |path| - 1 && path[1..][j] == Raises && forall i :: 0 <= i < j ==> path[1..][i] == Accepts {
        assert path[j + 1] == Raises;
        assert forall i :: 0 < i < j + 1 ==> path[i] == path[1..][i - 1];
      }
    } else if path != [] && path[0] == Raises {
      assert RaisesFirst(path);
    }
  }

  /** What the tallies are: how many paths did not raise, and how many all filters accepted. */
  lemma {:induction false} TallyCounts(paths: seq<Path>, k: nat)
    requires k <= |paths|
    ensures Tally(Items, paths, k) == |NotRaised(paths, k)|
    ensures Tally(PassedItems, paths, k) == |Accepted(paths, k)|
  {
    if k == 0 {
      assert NotRaised(paths, k) == {} && Accepted(paths, k) == {};
    } else {
      TallyCounts(paths, k - 1);
      FailedIff(paths[k - 1]);
      OneMore(paths, k - 1);
    }
  }

  lemma OneMore(paths: seq<Path>, k: nat)
    requires k < |paths|
    ensures |NotRaised(paths, k + 1)| == |NotRaised(paths, k)| + One(!RaisesFirst(paths[k]))
    ensures |Accepted(paths, k + 1)| == |Accepted(paths, k)| + One(AllAccept(paths[k]))
  {
    hide RaisesFirst, AllAccept;
    OneMoreSize(NotRaised(paths, k), NotRaised(paths, k + 1), k, !RaisesFirst(paths[k]));
    OneMoreSize(Accepted(paths, k), Accepted(paths, k + 1), k, AllAccept(paths[k]));
  }

  // ----- The queue and one worker -----

  /** A joinable queue; each method is one action under its mutex. `maxsize` below one means no
    * bound. A call that would block returns false or None instead. */
  class JoinableQueue<T> {
    const maxsize: int
    var items: seq<T>
    var unfinished: int

    constructor (maxsize: int)
      ensures this.maxsize == maxsize && items == [] && unfinished == 0
    {
      this.maxsize, items, unfinished := maxsize, [], 0;
    }

    method Put(x: T) returns (ok: bool)
      modifies this
      ensures ok == (maxsize <= 0 || |old(items)| < maxsize)
      ensures ok ==> items == old(items) + [x] && unfinished == old(unfinished) + 1
      ensures !ok ==> items == old(items) && unfinished == old(unfinished)
    {
      if 0 < maxsize <= |items| {
        return false;
      }
      items, unfinished := items + [x], unfinished + 1;
      return true;
    }

    method Get() returns (x: Option<T>)
      modifies this`items
      ensures old(items) == [] ==> x == None && items == []
      ensures old(items) != [] ==> x == Some(old(items)[0]) && items == old(items)[1..]
    {
      if items == [] {
        return None;
      }
      x := Some(items[0]);
      items := items[1..];
    }

    /** Marking more tasks done than were put raises ValueError. */
    method TaskDone() returns (ok: bool)
      modifies this`unfinished
      ensures ok == (old(unfinished) > 0)
      ensures unfinished == if ok then old(unfinished) - 1 else old(unfinished)
    {
      ok := unfinished > 0;
      if ok {
        unfinished := unfinished - 1;
      }
    }
  }

  class Statistics {
    var numWorkers: nat
    var numItems: nat
    var passedItems: nat
  }

  function Wrapped(paths: seq<Path>): seq<Option<Path>> {
    seq(|paths|, i requires 0 <= i < |paths| => Some(paths[i]))
  }

  /** `search_work` when no other worker interferes: everything up to the first None is dealt with
    * and marked done, what lies behind it is left alone, and the counts go to the statistics. */
  method SearchWork(queue: JoinableQueue<Option<Path>>, stats: Statistics, ghost paths: seq<Path>, ghost rest: seq<Option<Path>>)
    requires queue.items == Wrapped(paths) + [None] + rest
    requires queue.unfinished >= |queue.items|
    modifies queue, stats
    ensures queue.items == rest && queue.unfinished == old(queue.unfinished) - |paths| - 1
    ensures stats.numWorkers == old(stats.numWorkers) + 1
    ensures stats.numItems == old(stats.numItems) + |NotRaised(paths, |paths|)|
    ensures stats.passedItems == old(stats.passedItems) + |Accepted(paths, |paths|)|
  {
    TallyCounts(paths, |paths|);
    hide NotRaised, Accepted;
    var count, countPassed := 0, 0;
    ghost var k := 0;
    while true
      invariant k <= |paths|
      invariant queue.items == Wrapped(paths)[k..] + [None] + rest
      invariant queue.unfinished == old(queue.unfinished) - k
      invariant count == Tally(Items, paths, k) && countPassed == Tally(PassedItems, paths, k)
      invariant unchanged(stats)
      decreases |paths| - k
    {
      var src := queue.Get();
      assert k < |paths| ==> src == Some(Some(paths[k]));
      if src == Some(None) {
        break;
      }
      var outcome := RunFilters(src.value.value);
      if outcome != Failed {
        count := count + 1;
        countPassed := countPassed + if outcome == Passed then 1 else 0;
      }
      var _ := queue.TaskDone();
      k := k + 1;
    }
    assert k == |paths|;
    var _ := queue.TaskDone();
    stats.numWorkers := stats.numWorkers + 1;
    stats.numItems := stats.numItems + count;
    stats.passedItems := stats.passedItems + countPassed;
  }
}
