/** Decode, then bus: the decoder with any number of units and the bus with one, run together. A
  * request that has been decoded reaches the bus at that moment.
  */
module Pipeline {
  import opened EmulatedDecoder
  import opened Options
  import opened D = SimulatedDevice

  /** The bus jobs so far, in the order in which they reached the bus; `order` are their requests. */
  datatype Pipe = Pipe(now: real, decoder: State, bus: State, busJobs: seq<Job>, order: seq<nat>)

  datatype Event = Arrival | Decoded | Sent

  function Begin(init: real): Pipe { Pipe(init, Init(init), Init(init), [], []) }

  /** Events of either device happen in the order of their times. */
  predicate Due(jobs: seq<Job>, p: Pipe, e: Event) {
    match e
    case Arrival =>
      D.Enabled(jobs, p.decoder, Arrive) && NotAfter(jobs[p.decoder.arrived].arrival, p.bus)
    case Decoded =>
      D.Enabled(jobs, p.decoder, Finish) && NotAfter(p.decoder.users[0].end, p.bus)
    case Sent =>
      && p.bus.users != [] && NotAfter(p.bus.users[0].end, p.decoder)
      && (p.decoder.arrived < |jobs| ==> p.bus.users[0].end <= jobs[p.decoder.arrived].arrival)
  }

  predicate NotAfter(time: real, s: State) { s.users != [] ==> time <= s.users[0].end }

  function Happens(capacity: nat, jobs: seq<Job>, transfers: seq<real>, p: Pipe, e: Event): Pipe
    requires |transfers| == |jobs| && Due(jobs, p, e)
  {
    match e
    case Arrival =>
      p.(now := jobs[p.decoder.arrived].arrival, decoder := D.Do(capacity, jobs, p.decoder, Arrive))
    case Decoded =>
      var u := p.decoder.users[0];
      var busJobs := p.busJobs + [Job(u.end, if u.id < |jobs| then transfers[u.id] else 0.0)];
      Pipe(u.end, D.Do(capacity, jobs, p.decoder, Finish),
           if D.Enabled(busJobs, p.bus, Arrive) then D.Do(1, busJobs, p.bus, Arrive) else p.bus,
           busJobs, p.order + [u.id])
    case Sent =>
      p.(now := p.bus.users[0].end,
         bus := if D.Enabled(p.busJobs, p.bus, Finish) then D.Do(1, p.busJobs, p.bus, Finish) else p.bus)
  }

  // ----- Each request holds a decoder unit once -----

  predicate Once(users: seq<User>, done: map<nat, real>) {
    && (forall i, j :: 0 <= i < j < |users| ==> users[i].id != users[j].id)
    && (forall v <- users :: v.id !in done)
  }

  predicate HoldOnce(s: State) { Once(s.users, s.done) }

  /** Without the first user, who may be done. */
  lemma OnceRest(users: seq<User>, done: map<nat, real>, end: real)
    requires Once(users, done) && users != []
    ensures Once(users[1..], done[users[0].id := end]) && Once(users[1..], done)
    ensures forall v <- users[1..] :: v in users && v.id != users[0].id
  {
    var rest := users[1..];
    forall v <- rest ensures v in users && v.id != users[0].id {
      var k :| 0 <= k < |rest| && rest[k] == v;
      assert users[k + 1] == v;
    }
  }

  lemma {:induction false} ScheduleOnce(users: seq<User>, done: map<nat, real>, u: User)
    requires Once(users, done) && u.id !in done && forall v <- users :: v.id != u.id
    ensures Once(Schedule(users, u), done)
    decreases |users|
  {
    if users == [] || u.end < users[0].end {
    } else {
      var rest := users[1..];
      assert Schedule(users, u) == [users[0]] + Schedule(rest, u);
      hide Schedule;
      OnceRest(users, done, 0.0);
      ScheduleOnce(rest, done, u);
      ScheduleIsInsert(rest, u);
      assert users[0] in users;
    }
  }

  lemma StepOnce(init: real, capacity: nat, jobs: seq<Job>, s: State, step: Step)
    requires capacity > 0 && Inv(init, capacity, jobs, s) && D.Enabled(jobs, s, step) && HoldOnce(s)
    ensures HoldOnce(D.Do(capacity, jobs, s, step))
  {
    assert forall v <- s.users :: v.id < |s.ends|;
    assert forall id <- s.done :: id < |s.ends|;
    assert s.queue != [] ==> s.queue[0] == |s.ends|;
    assert |s.users| < capacity ==> s.queue == [] && s.arrived == |s.ends|;
    hide Inv, Schedule;
    match step
    case Arrive =>
      if |s.users| < capacity {
        ScheduleOnce(s.users, s.done, User(s.arrived, jobs[s.arrived].arrival + jobs[s.arrived].service));
      }
    case Finish => FinishOnce(capacity, jobs, s);
  }

  lemma FinishOnce(capacity: nat, jobs: seq<Job>, s: State)
    requires D.Enabled(jobs, s, Finish) && HoldOnce(s)
    requires (forall v <- s.users :: v.id < |s.ends|) && (forall id <- s.done :: id < |s.ends|)
    requires s.queue != [] ==> s.queue[0] == |s.ends|
    ensures HoldOnce(D.Do(capacity, jobs, s, Finish))
  {
    hide Schedule;
    var u := s.users[0];
    assert u in s.users;
    OnceRest(s.users, s.done, u.end);
    if s.queue != [] && s.queue[0] < |jobs| {
      ScheduleOnce(s.users[1..], s.done[u.id := u.end], User(s.queue[0], u.end + jobs[s.queue[0]].service));
    }
  }

  // ----- A device does not mind jobs that arrive later -----

  lemma {:induction false} UnitsOfFewer(init: real, capacity: nat, jobs: seq<Job>, more: seq<Job>, n: nat)
    requires n <= |jobs|
    ensures Units(init, capacity, jobs + more, n) == Units(init, capacity, jobs, n)
  {
    if n > 0 {
      UnitsOfFewer(init, capacity, jobs, more, n - 1);
    }
  }

  lemma AnotherJob(init: real, jobs: seq<Job>, s: State, x: Job)
    requires Inv(init, 1, jobs, s) && s.arrived == |jobs| && s.now <= x.arrival
    ensures Inv(init, 1, jobs + [x], s)
  {
    UnitsOfFewer(init, 1, jobs, [x], |s.ends|);
    forall i | 0 <= i < |s.ends| ensures s.ends[i] == End(init, 1, jobs + [x], i) {
      UnitsOfFewer(init, 1, jobs, [x], i);
      assert s.ends[i] == End(init, 1, jobs, i);
    }
    assert forall i :: 0 <= i < |jobs| ==> (jobs + [x])[i] == jobs[i];
  }

  // ----- The invariant -----

  /** The clock is between what each device has done and what it will do next. */
  predicate ClockInv(init: real, jobs: seq<Job>, p: Pipe) {
    && init <= p.now && p.bus.now <= p.now && NotAfter(p.now, p.decoder) && NotAfter(p.now, p.bus)
    && (p.decoder.arrived < |jobs| ==> p.now <= jobs[p.decoder.arrived].arrival)
    && forall j :: 0 <= j < |p.busJobs| ==> p.busJobs[j].arrival <= p.now
  }

  /** The bus jobs are the decoded requests, each once, in the order of their completion. */
  ghost predicate OrderInv(jobs: seq<Job>, transfers: seq<real>, p: Pipe)
    requires |transfers| == |jobs|
  {
    && |p.order| == |p.busJobs| == p.bus.arrived
    && (forall j :: 0 <= j < |p.order| ==> IsBusJob(jobs, transfers, p, j))
    && (forall i, j :: 0 <= i < j < |p.order| ==> p.order[i] != p.order[j])
    && (forall id <- p.decoder.done :: id in p.order)
  }

  predicate IsBusJob(jobs: seq<Job>, transfers: seq<real>, p: Pipe, j: nat)
    requires |transfers| == |jobs| && j < |p.order| && j < |p.busJobs|
  {
    && p.order[j] < |jobs| && p.order[j] in p.decoder.done
    && p.busJobs[j] == Job(p.decoder.done[p.order[j]], transfers[p.order[j]])
  }

  ghost predicate PipeInv(init: real, capacity: nat, jobs: seq<Job>, transfers: seq<real>, p: Pipe)
    requires capacity > 0 && |transfers| == |jobs|
  {
    && Inv(init, capacity, jobs, p.decoder) && HoldOnce(p.decoder)
    && Inv(init, 1, p.busJobs, p.bus) && Ordered(init, p.busJobs)
    && ClockInv(init, jobs, p) && OrderInv(jobs, transfers, p)
  }

  /** Requests and transfer times as the devices take them. */
  predicate Load(init: real, jobs: seq<Job>, transfers: seq<real>) {
    Ordered(init, jobs) && |transfers| == |jobs| && forall k :: 0 <= k < |transfers| ==> 0.0 <= transfers[k]
  }

  lemma EventKeepsInv(init: real, capacity: nat, jobs: seq<Job>, transfers: seq<real>, p: Pipe, e: Event)
    requires capacity > 0 && Load(init, jobs, transfers) && PipeInv(init, capacity, jobs, transfers, p) && Due(jobs, p, e)
    ensures PipeInv(init, capacity, jobs, transfers, Happens(capacity, jobs, transfers, p, e))
  {
    match e
    case Arrival => ArrivalKeepsInv(init, capacity, jobs, transfers, p);
    case Decoded => DecodedKeepsInv(init, capacity, jobs, transfers, p);
    case Sent => SentKeepsInv(init, capacity, jobs, transfers, p);
  }

  /** After an event of a device its next event is not in the past. */
  lemma NextNotPast(init: real, capacity: nat, jobs: seq<Job>, s: State)
    requires capacity > 0 && Inv(init, capacity, jobs, s)
    ensures NotAfter(s.now, s) && (s.arrived < |jobs| ==> s.now <= jobs[s.arrived].arrival)
  {
  }

  lemma ArrivalKeepsInv(init: real, capacity: nat, jobs: seq<Job>, transfers: seq<real>, p: Pipe)
    requires capacity > 0 && Load(init, jobs, transfers) && PipeInv(init, capacity, jobs, transfers, p) && Due(jobs, p, Arrival)
    ensures PipeInv(init, capacity, jobs, transfers, Happens(capacity, jobs, transfers, p, Arrival))
  {
    var q := Happens(capacity, jobs, transfers, p, Arrival);
    StepKeepsInv(init, capacity, jobs, p.decoder, Arrive);
    StepOnce(init, capacity, jobs, p.decoder, Arrive);
    NextNotPast(init, capacity, jobs, q.decoder);
    hide Inv, Ordered, HoldOnce;
    assert q.decoder.done == p.decoder.done && q.decoder.now == q.now;
    forall j | 0 <= j < |q.order| ensures IsBusJob(jobs, transfers, q, j) {
      assert IsBusJob(jobs, transfers, p, j);
    }
  }

  lemma SentKeepsInv(init: real, capacity: nat, jobs: seq<Job>, transfers: seq<real>, p: Pipe)
    requires capacity > 0 && Load(init, jobs, transfers) && PipeInv(init, capacity, jobs, transfers, p) && Due(jobs, p, Sent)
    ensures PipeInv(init, capacity, jobs, transfers, Happens(capacity, jobs, transfers, p, Sent))
  {
    var q := Happens(capacity, jobs, transfers, p, Sent);
    StepKeepsInv(init, 1, p.busJobs, p.bus, Finish);
    NextNotPast(init, 1, p.busJobs, q.bus);
    hide Inv, Ordered, HoldOnce;
    assert q.bus.now == q.now && q.bus.arrived == p.bus.arrived;
    forall j | 0 <= j < |q.order| ensures IsBusJob(jobs, transfers, q, j) {
      assert IsBusJob(jobs, transfers, p, j);
    }
  }

  lemma DecodedKeepsInv(init: real, capacity: nat, jobs: seq<Job>, transfers: seq<real>, p: Pipe)
    requires capacity > 0 && Load(init, jobs, transfers) && PipeInv(init, capacity, jobs, transfers, p) && Due(jobs, p, Decoded)
    ensures PipeInv(init, capacity, jobs, transfers, Happens(capacity, jobs, transfers, p, Decoded))
  {
    hide Schedule, Insert, Units;
    var q := Happens(capacity, jobs, transfers, p, Decoded);
    FinisherIsNew(init, capacity, jobs, p.decoder);
    StepKeepsInv(init, capacity, jobs, p.decoder, Finish);
    StepOnce(init, capacity, jobs, p.decoder, Finish);
    NextNotPast(init, capacity, jobs, q.decoder);
    BusTakes(init, p, p.decoder.users[0].end, transfers[p.decoder.users[0].id]);
    hide Inv, Ordered, HoldOnce;
    OrderGrows(jobs, transfers, p, q);
  }

  lemma FinisherIsNew(init: real, capacity: nat, jobs: seq<Job>, s: State)
    requires capacity > 0 && Inv(init, capacity, jobs, s) && HoldOnce(s) && D.Enabled(jobs, s, Finish)
    ensures s.users[0].id < |jobs| && s.users[0].id !in s.done
    ensures var t := D.Do(capacity, jobs, s, Finish);
      t.done == s.done[s.users[0].id := s.users[0].end] && t.now == s.users[0].end && t.arrived == s.arrived
  {
    assert s.users[0] in s.users;
  }

  /** The bus takes a job that reaches it now. */
  lemma BusTakes(init: real, p: Pipe, time: real, transfer: real)
    requires Inv(init, 1, p.busJobs, p.bus) && p.bus.arrived == |p.busJobs| && Ordered(init, p.busJobs)
    requires init <= p.now <= time && 0.0 <= transfer && p.bus.now <= p.now && NotAfter(time, p.bus)
    requires forall j :: 0 <= j < |p.busJobs| ==> p.busJobs[j].arrival <= p.now
    ensures var busJobs := p.busJobs + [Job(time, transfer)];
      && Ordered(init, busJobs) && D.Enabled(busJobs, p.bus, Arrive)
      && var bus := D.Do(1, busJobs, p.bus, Arrive);
      Inv(init, 1, busJobs, bus) && bus.arrived == |busJobs| && bus.now == time && NotAfter(time, bus)
  {
    var x := Job(time, transfer);
    AnotherJob(init, p.busJobs, p.bus, x);
    StepKeepsInv(init, 1, p.busJobs + [x], p.bus, Arrive);
    NextNotPast(init, 1, p.busJobs + [x], D.Do(1, p.busJobs + [x], p.bus, Arrive));
  }

  lemma OrderGrows(jobs: seq<Job>, transfers: seq<real>, p: Pipe, q: Pipe)
    requires |transfers| == |jobs| && OrderInv(jobs, transfers, p) && p.decoder.users != []
    requires var u := p.decoder.users[0];
      && u.id < |jobs| && u.id !in p.decoder.done
      && q.order == p.order + [u.id] && q.busJobs == p.busJobs + [Job(u.end, transfers[u.id])]
      && q.decoder.done == p.decoder.done[u.id := u.end] && q.bus.arrived == |q.busJobs|
    ensures OrderInv(jobs, transfers, q)
  {
    forall j | 0 <= j < |q.order| ensures IsBusJob(jobs, transfers, q, j) {
      assert j < |p.order| ==> IsBusJob(jobs, transfers, p, j);
    }
    forall i, j | 0 <= i < j < |q.order| ensures q.order[i] != q.order[j] {
      assert IsBusJob(jobs, transfers, p, i);
    }
    forall id <- q.decoder.done ensures id in q.order {
      assert id in p.order || id == q.order[|p.order|];
    }
  }

  // ----- Whole runs -----

  ghost predicate Reached(init: real, capacity: nat, jobs: seq<Job>, transfers: seq<real>, p: Pipe, n: nat)
    requires |transfers| == |jobs|
    decreases n
  {
    p == Begin(init)
    || (n > 0 && exists r, e :: Reached(init, capacity, jobs, transfers, r, n - 1) && Leads(capacity, jobs, transfers, r, e, p))
  }

  ghost predicate Leads(capacity: nat, jobs: seq<Job>, transfers: seq<real>, r: Pipe, e: Event, p: Pipe)
    requires |transfers| == |jobs|
  {
    Due(jobs, r, e) && p == Happens(capacity, jobs, transfers, r, e)
  }

  lemma {:induction false} ReachedInv(init: real, capacity: nat, jobs: seq<Job>, transfers: seq<real>, p: Pipe, n: nat)
    requires capacity > 0 && Load(init, jobs, transfers) && Reached(init, capacity, jobs, transfers, p, n)
    ensures PipeInv(init, capacity, jobs, transfers, p)
    decreases n
  {
    if p == Begin(init) {
    } else {
      var r, e :| Reached(init, capacity, jobs, transfers, r, n - 1) && Leads(capacity, jobs, transfers, r, e, p);
      ReachedInv(init, capacity, jobs, transfers, r, n - 1);
      EventKeepsInv(init, capacity, jobs, transfers, r, e);
    }
  }

  /** For any number of decoder units: the requests reach the bus in the order of their decode
    * completions, which are the computed ones, and a request that has left the bus left it when the
    * recursion of the emulated device says for those bus jobs; in particular no earlier than its
    * arrival plus both its times. */
  lemma PipelineMatchesRecursion(init: real, capacity: nat, jobs: seq<Job>, transfers: seq<real>, p: Pipe, n: nat, j: nat)
    requires capacity > 0 && Load(init, jobs, transfers) && Reached(init, capacity, jobs, transfers, p, n)
    requires j in p.bus.done
    ensures j < |p.order| && (forall i :: 0 <= i < |p.order| ==> p.order[i] < |jobs|)
    ensures forall i, k :: 0 <= i < k < |p.order| ==>
      p.order[i] != p.order[k] && End(init, capacity, jobs, p.order[i]) <= End(init, capacity, jobs, p.order[k])
    ensures p.bus.done[j] == Completion(init, BusJobs(init, capacity, jobs, transfers, p.order)[..j + 1])
    ensures p.bus.done[j] >= jobs[p.order[j]].arrival + jobs[p.order[j]].service + transfers[p.order[j]]
  {
    ReachedInv(init, capacity, jobs, transfers, p, n);
    BusJobsComputed(init, capacity, jobs, transfers, p);
    BusDoneComputed(init, p.busJobs, p.bus, j);
    assert |p.order| == |p.busJobs|;
    hide PipeInv, Reached, Load;
    PipelineLowerBound(init, capacity, jobs, transfers, p.order, j);
  }

  lemma BusDoneComputed(init: real, busJobs: seq<Job>, bus: State, j: nat)
    requires Inv(init, 1, busJobs, bus) && j in bus.done
    ensures j < |busJobs| && bus.done[j] == Completion(init, busJobs[..j + 1])
  {
    assert bus.done[j] == bus.ends[j] == End(init, 1, busJobs, j);
    OneUnit(init, busJobs, j);
    assert busJobs[..j + 1][..j] == busJobs[..j];
  }

  lemma BusJobsComputed(init: real, capacity: nat, jobs: seq<Job>, transfers: seq<real>, p: Pipe)
    requires capacity > 0 && Load(init, jobs, transfers) && PipeInv(init, capacity, jobs, transfers, p)
    ensures forall i :: 0 <= i < |p.order| ==> p.order[i] < |jobs|
    ensures p.busJobs == BusJobs(init, capacity, jobs, transfers, p.order)
    ensures forall i, k :: 0 <= i < k < |p.order| ==> p.order[i] != p.order[k]
    ensures forall i, k :: 0 <= i < k < |p.order| ==>
      End(init, capacity, jobs, p.order[i]) <= End(init, capacity, jobs, p.order[k])
  {
    forall i | 0 <= i < |p.order|
      ensures p.order[i] < |jobs|
      ensures p.busJobs[i] == Job(End(init, capacity, jobs, p.order[i]), transfers[p.order[i]])
    {
      assert IsBusJob(jobs, transfers, p, i);
      var id := p.order[i];
      assert p.decoder.done[id] == p.decoder.ends[id] == End(init, capacity, jobs, id);
    }
    forall i, k | 0 <= i < k < |p.order|
      ensures End(init, capacity, jobs, p.order[i]) <= End(init, capacity, jobs, p.order[k])
    {
      assert p.busJobs[i].arrival <= p.busJobs[k].arrival;
    }
  }

  /** Events of both devices at the same time may happen in any order. */
  lemma AnyFirst(jobs: seq<Job>, p: Pipe, e: Event)
    requires p.decoder.users != [] && p.bus.users != [] && p.decoder.arrived < |jobs|
    requires p.decoder.users[0].end == p.bus.users[0].end == jobs[p.decoder.arrived].arrival
    ensures Due(jobs, p, e)
  {
  }

  /** When nothing is due any more, every request has been decoded and has left the bus. */
  lemma OverWhenAllSent(init: real, capacity: nat, jobs: seq<Job>, transfers: seq<real>, p: Pipe, n: nat)
    requires capacity > 0 && Load(init, jobs, transfers) && Reached(init, capacity, jobs, transfers, p, n)
    requires forall e :: !Due(jobs, p, e)
    ensures forall id: nat :: id < |jobs| ==> id in p.order
    ensures forall j: nat :: j < |p.order| ==> j in p.bus.done
  {
    ReachedInv(init, capacity, jobs, transfers, p, n);
    assert !Due(jobs, p, Arrival) && !Due(jobs, p, Decoded) && !Due(jobs, p, Sent);
    hide Reached;
    StopsWhenAllDone(init, capacity, jobs, p.decoder);
    StopsWhenAllDone(init, 1, p.busJobs, p.bus);
  }

  // ----- A decoder with one unit -----

  /** A decoder with one unit decodes the requests one after the other. */
  predicate InTurn(p: Pipe) {
    && |p.decoder.ends| == |p.order| + |p.decoder.users|
    && forall j :: 0 <= j < |p.order| ==> p.order[j] == j
  }

  /** Every hold granted is still going on or over. */
  lemma HoldsCounted(capacity: nat, jobs: seq<Job>, s: State, step: Step)
    requires D.Enabled(jobs, s, step)
    ensures var t := D.Do(capacity, jobs, s, step);
      |t.ends| - |t.users| == |s.ends| - |s.users| + One(step.Finish?)
  {
  }

  lemma EventKeepsTurn(init: real, jobs: seq<Job>, transfers: seq<real>, p: Pipe, e: Event)
    requires Load(init, jobs, transfers) && PipeInv(init, 1, jobs, transfers, p) && Due(jobs, p, e) && InTurn(p)
    ensures InTurn(Happens(1, jobs, transfers, p, e))
  {
    hide PipeInv, Load, Do, Inv;
    if e.Arrival? {
      HoldsCounted(1, jobs, p.decoder, Arrive);
    } else if e.Decoded? {
      FirstIsNext(init, jobs, transfers, p);
      HoldsCounted(1, jobs, p.decoder, Finish);
    }
  }

  lemma FirstIsNext(init: real, jobs: seq<Job>, transfers: seq<real>, p: Pipe)
    requires Load(init, jobs, transfers) && PipeInv(init, 1, jobs, transfers, p) && InTurn(p) && p.decoder.users != []
    ensures p.decoder.users[0].id == |p.order|
  {
    var id := p.decoder.users[0].id;
    assert p.decoder.users[0] in p.decoder.users;
    forall j: nat | j < |p.order| ensures j in p.decoder.done {
      assert IsBusJob(jobs, transfers, p, j) && p.order[j] == j;
    }
  }

  lemma {:induction false} ReachedInTurn(init: real, jobs: seq<Job>, transfers: seq<real>, p: Pipe, n: nat)
    requires Load(init, jobs, transfers) && Reached(init, 1, jobs, transfers, p, n)
    ensures InTurn(p)
    decreases n
  {
    if p != Begin(init) {
      var r, e :| Reached(init, 1, jobs, transfers, r, n - 1) && Leads(1, jobs, transfers, r, e, p);
      ReachedInTurn(init, jobs, transfers, r, n - 1);
      ReachedInv(init, 1, jobs, transfers, r, n - 1);
      EventKeepsTurn(init, jobs, transfers, r, e);
    }
  }

  /** Then the bus jobs are those of TandemClosedForm, so that lemma says when the last request
    * leaves the bus. */
  lemma OneDecoderIsTandem(init: real, jobs: seq<Job>, transfers: seq<real>, p: Pipe, n: nat)
    requires Load(init, jobs, transfers) && jobs != [] && Reached(init, 1, jobs, transfers, p, n)
    requires forall e :: !Due(jobs, p, e)
    ensures p.busJobs == Tandem(init, jobs, transfers)
    ensures |jobs| - 1 in p.bus.done && p.bus.done[|jobs| - 1] == Completion(init, Tandem(init, jobs, transfers))
  {
    assert |transfers| == |jobs|;
    hide *;
    ReachedInv(init, 1, jobs, transfers, p, n);
    ReachedInTurn(init, jobs, transfers, p, n);
    OverWhenAllSent(init, 1, jobs, transfers, p, n);
    BusJobsComputed(init, 1, jobs, transfers, p);
    AllInTurn(init, jobs, transfers, p);
    LastOnBus(init, jobs, transfers, p);
  }

  lemma AllInTurn(init: real, jobs: seq<Job>, transfers: seq<real>, p: Pipe)
    requires InTurn(p) && |transfers| == |jobs| && forall id: nat :: id < |jobs| ==> id in p.order
    requires forall i :: 0 <= i < |p.order| ==> p.order[i] < |jobs|
    requires p.busJobs == BusJobs(init, 1, jobs, transfers, p.order)
    ensures |p.order| == |jobs| && p.busJobs == Tandem(init, jobs, transfers) && |p.busJobs| == |jobs|
  {
    AllOf(p.order, |jobs|);
    TandemBus(init, jobs, transfers, p.order);
  }

  lemma LastOnBus(init: real, jobs: seq<Job>, transfers: seq<real>, p: Pipe)
    requires |transfers| == |jobs| && PipeInv(init, 1, jobs, transfers, p) && |p.busJobs| - 1 in p.bus.done
    ensures p.bus.done[|p.busJobs| - 1] == Completion(init, p.busJobs)
  {
    BusDoneComputed(init, p.busJobs, p.bus, |p.busJobs| - 1);
    assert p.busJobs[..|p.busJobs| - 1 + 1] == p.busJobs;
  }

  lemma TandemBus(init: real, jobs: seq<Job>, transfers: seq<real>, order: seq<nat>)
    requires |order| == |transfers| == |jobs| && forall j :: 0 <= j < |order| ==> order[j] == j
    ensures BusJobs(init, 1, jobs, transfers, order) == Tandem(init, jobs, transfers)
  {
    forall k | 0 <= k < |jobs| ensures End(init, 1, jobs, k) == Completion(init, jobs[..k + 1]) {
      OneUnit(init, jobs, k);
      assert jobs[..k + 1][..k] == jobs[..k];
    }
  }

  lemma AllOf(order: seq<nat>, n: nat)
    requires forall j :: 0 <= j < |order| ==> order[j] == j
    requires (forall id: nat :: id < n ==> id in order) && (forall i :: 0 <= i < |order| ==> order[i] < n)
    ensures |order| == n
  {
    if n > 0 {
      assert n - 1 in order;
    }
    if |order| > 0 {
      assert order[|order| - 1] < n;
    }
  }
}
