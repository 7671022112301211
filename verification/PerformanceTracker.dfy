/** The performance trackers: operations are logged under a lock while a reporting thread snapshots
  * and resets the counters, again under the lock, and works out a report after releasing it.
  *
  * The multi-client tracker is modelled; the plain one is the same without the client columns.
  */
module PerformanceTracker {
  import opened Options

  /** One logged operation of a known client. */
  datatype Entry = Entry(client: nat, latency: Option<int>, value: int)

  /** The counters that a snapshot resets. `cells` is the client dictionary. */
  datatype Counters = Counters(latSum: int, latCount: nat, latMax: Option<int>, latMin: Option<int>, cells: seq<Option<int>>)

  /** What a snapshot takes under the lock. */
  datatype Capture = Capture(total: int, responses: nat, counters: Counters)

  datatype Report = Report(newBytes: int, total: int, responses: nat, counters: Counters)

  /** A latency of zero counts as none. */
  predicate Truthy(latency: Option<int>) { latency.Some? && latency.value != 0 }

  /** `None` is below every number. */
  function Larger(a: Option<int>, b: Option<int>): Option<int> {
    if a.None? then b else if b.None? then a else if a.value >= b.value then a else b
  }

  /** The empty string is above every number. */
  function Smaller(a: Option<int>, b: Option<int>): Option<int> {
    if a.None? then b else if b.None? then a else if a.value <= b.value then a else b
  }

  // ----- What an interval amounts to -----

  function Bytes(es: seq<Entry>): int {
    if es == [] then 0 else Bytes(es[..|es| - 1]) + es[|es| - 1].value
  }

  /** The truthy latencies, in order. */
  function Latencies(es: seq<Entry>): seq<int> {
    if es == [] then []
    else
      var front, last := Latencies(es[..|es| - 1]), es[|es| - 1];
      if Truthy(last.latency) then front + [last.latency.value] else front
  }

  function Sum(xs: seq<int>): int { if xs == [] then 0 else Sum(xs[..|xs| - 1]) + xs[|xs| - 1] }

  ghost predicate IsMax(m: Option<int>, xs: seq<int>) {
    && (m.None? <==> xs == [])
    && (m.Some? ==> m.value in xs && forall k :: 0 <= k < |xs| ==> xs[k] <= m.value)
  }

  ghost predicate IsMin(m: Option<int>, xs: seq<int>) {
    && (m.None? <==> xs == [])
    && (m.Some? ==> m.value in xs && forall k :: 0 <= k < |xs| ==> m.value <= xs[k])
  }

  /** A client's cell: its bytes, or its largest latency. */
  function Cell(maxLat: bool, es: seq<Entry>, client: nat): Option<int> {
    if es == [] then Fresh(maxLat)
    else
      var cell, last := Cell(maxLat, es[..|es| - 1], client), es[|es| - 1];
      if last.client == client then Updated(maxLat, cell, last.latency, last.value) else cell
  }

  function Fresh(maxLat: bool): Option<int> { if maxLat then None else Some(0) }

  function Updated(maxLat: bool, cell: Option<int>, latency: Option<int>, value: int): Option<int> {
    if maxLat then Larger(cell, latency) else if cell.Some? then Some(cell.value + value) else cell
  }

  /** What one entry adds: its bytes, to all and to its client's; its latency, if it has one that is not
    * zero. */
  lemma OneEntryMore(es: seq<Entry>, e: Entry, client: nat)
    ensures Bytes([]) == 0 && Bytes(es + [e]) == Bytes(es) + e.value
    ensures Latencies([]) == []
    ensures Latencies(es + [e]) == Latencies(es) + match e.latency case None => [] case Some(x) => if x == 0 then [] else [x]
    ensures Cell(false, [], client) == Some(0) && Cell(false, es, client).Some?
    ensures Cell(false, es + [e], client) ==
      Some(Cell(false, es, client).value + if e.client == client then e.value else 0)
  {
    assert (es + [e])[..|es|] == es;
    ByteCells(es, client);
  }

  lemma SumMore(xs: seq<int>, x: int)
    ensures Sum([]) == 0 && Sum(xs + [x]) == Sum(xs) + x
  {
    assert (xs + [x])[..|xs|] == xs;
  }

  /** Asked for the largest latencies, a client's cell is the largest of its latencies in the interval,
    * zeros included. */
  lemma {:induction false} CellIsLargest(es: seq<Entry>, client: nat)
    ensures var cell := Cell(true, es, client);
      && (cell.None? <==> forall k :: 0 <= k < |es| && es[k].client == client ==> es[k].latency == None)
      && (cell.Some? ==> exists k :: 0 <= k < |es| && es[k].client == client && es[k].latency == cell)
      && forall k :: 0 <= k < |es| && es[k].client == client && es[k].latency.Some? ==> es[k].latency.value <= cell.value
    decreases |es|
  {
    if es != [] {
      var n := |es| - 1;
      CellIsLargest(es[..n], client);
      assert es == es[..n] + [es[n]];
    }
  }

  /** The counters describe the entries, and nothing else. */
  ghost predicate Describes(c: Counters, maxLat: bool, n: nat, es: seq<Entry>) {
    && c.latSum == Sum(Latencies(es)) && c.latCount == |Latencies(es)|
    && IsMax(c.latMax, Latencies(es)) && IsMin(c.latMin, Latencies(es))
    && |c.cells| == n && forall client: nat :: client < n ==> c.cells[client] == Cell(maxLat, es, client)
  }

  function NoCounters(maxLat: bool, n: nat): Counters {
    Counters(0, 0, None, None, seq(n, _ => Fresh(maxLat)))
  }

  function Counted(c: Counters, maxLat: bool, e: Entry): Counters
    requires e.client < |c.cells|
  {
    var cells := c.cells[e.client := Updated(maxLat, c.cells[e.client], e.latency, e.value)];
    if Truthy(e.latency) then
      Counters(c.latSum + e.latency.value, c.latCount + 1, Larger(e.latency, c.latMax), Smaller(e.latency, c.latMin), cells)
    else c.(cells := cells)
  }

  lemma LatencyCounted(c: Counters, xs: seq<int>, x: int)
    requires c.latSum == Sum(xs) && IsMax(c.latMax, xs) && IsMin(c.latMin, xs)
    ensures c.latSum + x == Sum(xs + [x]) && IsMax(Larger(Some(x), c.latMax), xs + [x]) && IsMin(Smaller(Some(x), c.latMin), xs + [x])
  {
    assert (xs + [x])[..|xs|] == xs;
    assert (xs + [x])[|xs|] == x;
    var max, min := Larger(Some(x), c.latMax), Smaller(Some(x), c.latMin);
    assert max.value in xs || max.value == x;
    assert min.value in xs || min.value == x;
  }

  lemma CountedDescribes(c: Counters, maxLat: bool, n: nat, es: seq<Entry>, e: Entry)
    requires Describes(c, maxLat, n, es) && e.client < n
    ensures Describes(Counted(c, maxLat, e), maxLat, n, es + [e])
  {
    assert (es + [e])[..|es|] == es;
    if Truthy(e.latency) {
      LatencyCounted(c, Latencies(es), e.latency.value);
    }
    forall client: nat | client < n ensures Counted(c, maxLat, e).cells[client] == Cell(maxLat, es + [e], client) {
    }
  }

  // ----- Conservation -----

  lemma {:induction false} BytesAppend(a: seq<Entry>, b: seq<Entry>)
    ensures Bytes(a + b) == Bytes(a) + Bytes(b)
    decreases |b|
  {
    if b == [] {
      assert a + b == a;
    } else {
      var n := |b| - 1;
      assert (a + b)[..|a| + n] == a + b[..n];
      BytesAppend(a, b[..n]);
    }
  }

  lemma {:induction false} LatenciesAppend(a: seq<Entry>, b: seq<Entry>)
    ensures Latencies(a + b) == Latencies(a) + Latencies(b)
    decreases |b|
  {
    if b == [] {
      assert a + b == a;
    } else {
      var n := |b| - 1;
      assert (a + b)[..|a| + n] == a + b[..n];
      LatenciesAppend(a, b[..n]);
    }
  }

  /** Report `k` describes exactly the operations logged between cut `k` and cut `k + 1`. */
  ghost predicate IsReport(r: Report, maxLat: bool, n: nat, logged: seq<Entry>, a: nat, b: nat) {
    && a <= b <= |logged|
    && r.total == Bytes(logged[..b]) && r.responses == b
    && r.newBytes == Bytes(logged[a..b])
    && Describes(r.counters, maxLat, n, logged[a..b])
  }

  ghost predicate AreReports(reports: seq<Report>, maxLat: bool, n: nat, logged: seq<Entry>, cuts: seq<nat>) {
    && |cuts| == |reports| + 1 && cuts[0] == 0 && cuts[|reports|] <= |logged|
    && forall k :: 0 <= k < |reports| ==> IsReport(reports[k], maxLat, n, logged, cuts[k], cuts[k + 1])
  }

  function BytesReported(reports: seq<Report>): int {
    if reports == [] then 0 else BytesReported(reports[..|reports| - 1]) + reports[|reports| - 1].newBytes
  }

  function MaxReported(reports: seq<Report>): Option<int> {
    if reports == [] then None
    else Larger(MaxReported(reports[..|reports| - 1]), reports[|reports| - 1].counters.latMax)
  }

  function LatenciesReported(reports: seq<Report>): nat {
    if reports == [] then 0 else LatenciesReported(reports[..|reports| - 1]) + reports[|reports| - 1].counters.latCount
  }

  lemma MaxAppend(a: Option<int>, xs: seq<int>, b: Option<int>, ys: seq<int>)
    requires IsMax(a, xs) && IsMax(b, ys)
    ensures IsMax(Larger(a, b), xs + ys)
  {
    var m := Larger(a, b);
    if m.Some? {
      assert m.value in xs || m.value in ys;
      forall k | 0 <= k < |xs + ys| ensures (xs + ys)[k] <= m.value {
        if k < |xs| { assert xs[k] <= a.value; } else { assert ys[k - |xs|] <= b.value; }
      }
    }
  }

  /** The reports telescope: their bytes add up to the total of the last one, every truthy latency
    * up to the last cut is counted in exactly one of them, and the largest they report is the
    * largest logged. */
  lemma {:induction false} ReportsConserve(reports: seq<Report>, maxLat: bool, n: nat, logged: seq<Entry>, cuts: seq<nat>)
    requires AreReports(reports, maxLat, n, logged, cuts)
    ensures var past := logged[..cuts[|reports|]];
      && BytesReported(reports) == Bytes(past)
      && LatenciesReported(reports) == |Latencies(past)|
      && IsMax(MaxReported(reports), Latencies(past))
    decreases |reports|
  {
    if reports != [] {
      var k := |reports| - 1;
      var (a, b) := (cuts[k], cuts[k + 1]);
      assert IsReport(reports[k], maxLat, n, logged, a, b);
      FrontIsReports(reports, maxLat, n, logged, cuts);
      ReportsConserve(reports[..k], maxLat, n, logged, cuts[..k + 1]);
      assert logged[..b] == logged[..a] + logged[a..b];
      BytesAppend(logged[..a], logged[a..b]);
      LatenciesAppend(logged[..a], logged[a..b]);
      MaxAppend(MaxReported(reports[..k]), Latencies(logged[..a]), reports[k].counters.latMax, Latencies(logged[a..b]));
    }
  }

  lemma FrontIsReports(reports: seq<Report>, maxLat: bool, n: nat, logged: seq<Entry>, cuts: seq<nat>)
    requires AreReports(reports, maxLat, n, logged, cuts) && reports != []
    ensures AreReports(reports[..|reports| - 1], maxLat, n, logged, cuts[..|reports|])
  {
    var k := |reports| - 1;
    assert IsReport(reports[k], maxLat, n, logged, cuts[k], cuts[k + 1]);
    forall j | 0 <= j < k ensures IsReport(reports[..k][j], maxLat, n, logged, cuts[..k + 1][j], cuts[..k + 1][j + 1]) {
      assert IsReport(reports[j], maxLat, n, logged, cuts[j], cuts[j + 1]);
    }
  }

  /** With the current interval, no latency is missing from the maximum. */
  lemma OverallMax(reports: seq<Report>, maxLat: bool, n: nat, logged: seq<Entry>, cuts: seq<nat>, current: Counters)
    requires AreReports(reports, maxLat, n, logged, cuts)
    requires Describes(current, maxLat, n, logged[cuts[|reports|]..])
    ensures IsMax(Larger(MaxReported(reports), current.latMax), Latencies(logged))
    ensures LatenciesReported(reports) + current.latCount == |Latencies(logged)|
  {
    var last := cuts[|reports|];
    ReportsConserve(reports, maxLat, n, logged, cuts);
    assert logged == logged[..last] + logged[last..];
    LatenciesAppend(logged[..last], logged[last..]);
    MaxAppend(MaxReported(reports), Latencies(logged[..last]), current.latMax, Latencies(logged[last..]));
  }

  function CellSum(cells: seq<Option<int>>): int {
    if cells == [] then 0
    else CellSum(cells[..|cells| - 1]) + var last := cells[|cells| - 1]; if last.Some? then last.value else 0
  }

  lemma {:induction false} CellSumUpdate(cells: seq<Option<int>>, i: nat, v: int)
    requires i < |cells| && cells[i].Some?
    ensures CellSum(cells[i := Some(cells[i].value + v)]) == CellSum(cells) + v
    decreases |cells|
  {
    var n := |cells| - 1;
    var cells' := cells[i := Some(cells[i].value + v)];
    if i < n {
      assert cells'[..n] == cells[..n][i := Some(cells[i].value + v)];
      CellSumUpdate(cells[..n], i, v);
    } else {
      assert cells'[..n] == cells[..n];
    }
  }

  lemma {:induction false} NoCells(n: nat)
    ensures CellSum(seq(n, _ => Some(0))) == 0
  {
    if n > 0 {
      NoCells(n - 1);
      assert seq(n, _ => Some(0))[..n - 1] == seq(n - 1, _ => Some(0));
    }
  }

  lemma {:induction false} ByteCells(es: seq<Entry>, client: nat)
    ensures Cell(false, es, client).Some?
    decreases |es|
  {
    if es != [] {
      ByteCells(es[..|es| - 1], client);
    }
  }

  /** Counting bytes, the clients' bytes of an interval are the bytes of the interval. */
  lemma {:induction false} ClientsShareBytes(cells: seq<Option<int>>, es: seq<Entry>)
    requires forall client: nat :: client < |cells| ==> cells[client] == Cell(false, es, client)
    requires forall k :: 0 <= k < |es| ==> es[k].client < |cells|
    ensures CellSum(cells) == Bytes(es)
    decreases |es|
  {
    var n := |cells|;
    if es == [] {
      NoCells(n);
      assert cells == seq(n, _ => Some(0));
    } else {
      var (front, last) := (es[..|es| - 1], es[|es| - 1]);
      var before := seq(n, client requires 0 <= client < n => Cell(false, front, client));
      ClientsShareBytes(before, front);
      ByteCells(front, last.client);
      assert cells == before[last.client := Some(before[last.client].value + last.value)];
      CellSumUpdate(before, last.client, last.value);
    }
  }

  // ----- The tracker -----

  /** Logging more leaves past intervals as they were. */
  lemma LoggingKeepsReports(reports: seq<Report>, maxLat: bool, n: nat, logged: seq<Entry>, e: Entry, cuts: seq<nat>)
    requires AreReports(reports, maxLat, n, logged, cuts)
    ensures AreReports(reports, maxLat, n, logged + [e], cuts)
  {
    forall k | 0 <= k < |reports| ensures IsReport(reports[k], maxLat, n, logged + [e], cuts[k], cuts[k + 1]) {
      var (a, b) := (cuts[k], cuts[k + 1]);
      assert IsReport(reports[k], maxLat, n, logged, a, b);
      assert (logged + [e])[..b] == logged[..b] && (logged + [e])[a..b] == logged[a..b];
    }
  }

  lemma ReportAdded(reports: seq<Report>, r: Report, maxLat: bool, n: nat, logged: seq<Entry>, cuts: seq<nat>, b: nat)
    requires AreReports(reports, maxLat, n, logged, cuts)
    requires IsReport(r, maxLat, n, logged, cuts[|reports|], b)
    ensures AreReports(reports + [r], maxLat, n, logged, cuts + [b])
  {
    forall k | 0 <= k <= |reports| ensures IsReport((reports + [r])[k], maxLat, n, logged, (cuts + [b])[k], (cuts + [b])[k + 1]) {
      if k < |reports| {
        assert IsReport(reports[k], maxLat, n, logged, cuts[k], cuts[k + 1]);
      }
    }
  }

  /** The running totals and counters agree with the log, which is reported up to `last` and
    * captured up to `mark`. */
  ghost predicate Accounts(maxLat: bool, n: nat, logged: seq<Entry>, last: nat, mark: nat,
    b0: int, b1: int, counters: Counters, snapshot: Option<Capture>, kill: bool)
  {
    && last <= mark <= |logged|
    && b0 == Bytes(logged[..last]) && b1 == Bytes(logged)
    && Describes(counters, maxLat, n, logged[mark..])
    && (snapshot.None? && !kill ==> mark == last)
    && (snapshot.Some? ==> snapshot.value.total == Bytes(logged[..mark]) && snapshot.value.responses == mark)
    && (snapshot.Some? && !kill ==> Describes(snapshot.value.counters, maxLat, n, logged[last..mark]))
  }

  lemma LoggingKeepsAccounts(maxLat: bool, n: nat, logged: seq<Entry>, last: nat, mark: nat,
    b0: int, b1: int, counters: Counters, snapshot: Option<Capture>, kill: bool, e: Entry)
    requires Accounts(maxLat, n, logged, last, mark, b0, b1, counters, snapshot, kill) && e.client < n
    ensures Accounts(maxLat, n, logged + [e], last, mark, b0, b1 + e.value, Counted(counters, maxLat, e), snapshot, kill)
  {
    var logged' := logged + [e];
    assert logged'[mark..] == logged[mark..] + [e] && logged'[..mark] == logged[..mark];
    assert logged'[last..mark] == logged[last..mark] && logged'[..last] == logged[..last];
    CountedDescribes(counters, maxLat, n, logged[mark..], e);
  }

  lemma CaptureKeepsAccounts(maxLat: bool, n: nat, logged: seq<Entry>, last: nat, mark: nat,
    b0: int, b1: int, counters: Counters, kill: bool)
    requires Accounts(maxLat, n, logged, last, mark, b0, b1, counters, None, kill)
    ensures Accounts(maxLat, n, logged, last, |logged|, b0, b1, NoCounters(maxLat, n),
      Some(Capture(b1, |logged|, counters)), kill)
  {
    assert logged[..|logged|] == logged && logged[|logged|..] == [];
    assert logged[last..|logged|] == logged[last..];
  }

  lemma ReportFromCapture(maxLat: bool, n: nat, logged: seq<Entry>, last: nat, mark: nat,
    b0: int, b1: int, counters: Counters, c: Capture)
    requires Accounts(maxLat, n, logged, last, mark, b0, b1, counters, Some(c), false)
    ensures IsReport(Report(c.total - b0, c.total, c.responses, c.counters), maxLat, n, logged, last, mark)
    ensures Accounts(maxLat, n, logged, mark, mark, c.total, b1, counters, None, false)
  {
    assert logged[..mark] == logged[..last] + logged[last..mark];
    BytesAppend(logged[..last], logged[last..mark]);
  }

  lemma CaptureDropped(maxLat: bool, n: nat, logged: seq<Entry>, last: nat, mark: nat,
    b0: int, b1: int, counters: Counters, c: Capture)
    requires Accounts(maxLat, n, logged, last, mark, b0, b1, counters, Some(c), true)
    ensures Accounts(maxLat, n, logged, last, mark, b0, b1, counters, None, true)
  {
  }

  class MultiClientPerformanceTracker {
    const maxLat: bool
    const clients: nat
    var b0: int
    var b1: int
    var responses: nat
    var counters: Counters
    var kill: bool
    /** The reporting thread, between the locked part of its snapshot and the rest. */
    var snapshot: Option<Capture>
    var reports: seq<Report>

    ghost var logged: seq<Entry>
    /** Where in the log the reports end. */
    ghost var cuts: seq<nat>
    /** Where in the log the counters begin. */
    ghost var mark: nat

    ghost function Reported(): nat
      requires |cuts| > 0
      reads this
    {
      cuts[|cuts| - 1]
    }

    ghost predicate Valid()
      reads this
    {
      && AreReports(reports, maxLat, clients, logged, cuts)
      && responses == |logged| && (forall k :: 0 <= k < |logged| ==> logged[k].client < clients)
      && Accounts(maxLat, clients, logged, Reported(), mark, b0, b1, counters, snapshot, kill)
    }

    constructor (clients: nat, maxLat: bool)
      ensures Valid() && !kill && logged == [] && this.clients == clients && this.maxLat == maxLat
    {
      this.clients, this.maxLat := clients, maxLat;
      b0, b1, responses, counters := 0, 0, 0, NoCounters(maxLat, clients);
      kill, snapshot, reports := false, None, [];
      logged, cuts, mark := [], [0], 0;
    }

    /** An unknown client is not logged at all. */
    method LogOp(client: nat, latency: Option<int>, value: int)
      requires Valid()
      modifies this`b1, this`responses, this`counters, this`logged
      ensures Valid()
      ensures logged == old(logged) + if client < clients then [Entry(client, latency, value)] else []
      ensures client < clients ==> b1 == old(b1) + value && responses == old(responses) + 1
      ensures client >= clients ==> b1 == old(b1) && responses == old(responses) && counters == old(counters)
    {
      if client >= clients {
        return;
      }
      hide Accounts, AreReports, Counted;
      ghost var e := Entry(client, latency, value);
      LoggingKeepsReports(reports, maxLat, clients, logged, e, cuts);
      LoggingKeepsAccounts(maxLat, clients, logged, Reported(), mark, b0, b1, counters, snapshot, kill, e);
      counters := Counted(counters, maxLat, Entry(client, latency, value));
      b1 := b1 + value;
      responses := responses + 1;
      logged := logged + [e];
    }

    /** The locked part of a snapshot. One reporting thread is joined before the next begins. */
    method Snapshot()
      requires Valid() && snapshot.None?
      modifies this`snapshot, this`counters, this`mark
      ensures Valid() && mark == |logged| && snapshot == Some(Capture(b1, responses, old(counters)))
      ensures counters.latSum == counters.latCount == 0 && counters.latMax == counters.latMin == None
      ensures forall k :: 0 <= k < |counters.cells| ==> counters.cells[k] == if maxLat then None else Some(0)
    {
      CaptureKeepsAccounts(maxLat, clients, logged, Reported(), mark, b0, b1, counters, kill);
      snapshot := Some(Capture(b1, responses, counters));
      counters := NoCounters(maxLat, clients);
      mark := |logged|;
    }

    /** The rest of it: no report once the tracker was told to stop. */
    method Finish() returns (report: Option<Report>)
      requires Valid() && snapshot.Some?
      modifies this`snapshot, this`b0, this`reports, this`cuts
      ensures Valid() && snapshot.None? && report.Some? == !kill
      ensures kill ==> reports == old(reports) && cuts == old(cuts)
      ensures kill ==> b0 == old(b0)
      ensures !kill ==> reports == old(reports) + [report.value] && cuts == old(cuts) + [mark]
      ensures !kill ==> var Capture(total, count, taken) := old(snapshot).value;
        b0 == total && report.value == Report(total - old(b0), total, count, taken)
    {
      assert |cuts| == |reports| + 1;
      hide Accounts, AreReports, IsReport;
      var c := snapshot.value;
      snapshot := None;
      if kill {
        CaptureDropped(maxLat, clients, logged, Reported(), mark, b0, b1, counters, c);
        return None;
      }
      var r := Report(c.total - b0, c.total, c.responses, c.counters);
      ReportFromCapture(maxLat, clients, logged, Reported(), mark, b0, b1, counters, c);
      ReportAdded(reports, r, maxLat, clients, logged, cuts, mark);
      b0 := c.total;
      reports := reports + [r];
      cuts := cuts + [mark];
      return Some(r);
    }

    method Stop()
      requires Valid()
      modifies this`kill
      ensures Valid() && kill
    {
      kill := true;
    }
  }

  /** What a tracker that is running has reported, is reporting and will report is all that was
    * logged. */
  lemma {:induction false} RunningLosesNothing(t: MultiClientPerformanceTracker)
    requires t.Valid() && !t.kill
    ensures t.b0 == BytesReported(t.reports)
    ensures t.snapshot.None? ==> LatenciesReported(t.reports) + t.counters.latCount == |Latencies(t.logged)|
    ensures t.snapshot.None? ==> IsMax(Larger(MaxReported(t.reports), t.counters.latMax), Latencies(t.logged))
    ensures t.snapshot.Some? ==>
      LatenciesReported(t.reports) + t.snapshot.value.counters.latCount + t.counters.latCount == |Latencies(t.logged)|
    ensures t.snapshot.Some? ==>
      IsMax(Larger(Larger(MaxReported(t.reports), t.snapshot.value.counters.latMax), t.counters.latMax), Latencies(t.logged))
  {
    ReportsConserve(t.reports, t.maxLat, t.clients, t.logged, t.cuts);
    if t.snapshot.None? {
      OverallMax(t.reports, t.maxLat, t.clients, t.logged, t.cuts, t.counters);
    } else {
      var (last, mark) := (t.cuts[|t.reports|], t.mark);
      var (past, taken, now) := (t.logged[..last], t.logged[last..mark], t.logged[mark..]);
      assert t.logged == past + taken + now;
      LatenciesAppend(past, taken);
      LatenciesAppend(past + taken, now);
      var c := t.snapshot.value.counters;
      MaxAppend(MaxReported(t.reports), Latencies(past), c.latMax, Latencies(taken));
      MaxAppend(Larger(MaxReported(t.reports), c.latMax), Latencies(past + taken), t.counters.latMax, Latencies(now));
    }
  }

  /** Counting bytes, the client columns of every report add up to its new bytes. */
  lemma ReportSharesBytes(t: MultiClientPerformanceTracker, k: nat)
    requires t.Valid() && !t.maxLat && k < |t.reports|
    ensures CellSum(t.reports[k].counters.cells) == t.reports[k].newBytes
  {
    var (a, b) := (t.cuts[k], t.cuts[k + 1]);
    assert IsReport(t.reports[k], t.maxLat, t.clients, t.logged, a, b);
    ClientsShareBytes(t.reports[k].counters.cells, t.logged[a..b]);
  }
}
