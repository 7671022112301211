/** The event-driven devices of the simulator: a resource with some number of units that serves
  * requests first come, first served. A request acquires a unit, holds it for its service time
  * and releases it. The decoder has several units, the bus one.
  */
module SimulatedDevice {
  import opened EmulatedDecoder
  import opened Options

  datatype User = User(id: nat, end: real)

  /** `users` hold a unit, in the order in which their timeouts will fire; `queue` waits. The ends
    * of all holds granted so far are a history, in the order of granting. */
  datatype State = State(now: real, users: seq<User>, queue: seq<nat>, arrived: nat, ends: seq<real>, done: map<nat, real>)

  datatype Step = Arrive | Finish

  function Init(now: real): State { State(now, [], [], 0, [], map[]) }

  /** Events happen in the order of their times. */
  predicate Enabled(jobs: seq<Job>, s: State, step: Step) {
    match step
    case Arrive => s.arrived < |jobs| && (s.users != [] ==> jobs[s.arrived].arrival <= s.users[0].end)
    case Finish => s.users != [] && (s.arrived < |jobs| ==> s.users[0].end <= jobs[s.arrived].arrival)
  }

  /** The event list keeps timeouts in the order of their times, first come first among equals. */
  function Schedule(users: seq<User>, u: User): (r: seq<User>)
    ensures |r| == |users| + 1
  {
    if users == [] || u.end < users[0].end then [u] + users
    else [users[0]] + Schedule(users[1..], u)
  }

  /** A unit is granted to the job: its timeout starts now. */
  function Grant(jobs: seq<Job>, s: State, id: nat): State
    requires id < |jobs|
  {
    var end := s.now + jobs[id].service;
    s.(users := Schedule(s.users, User(id, end)), ends := s.ends + [end])
  }

  function Do(capacity: nat, jobs: seq<Job>, s: State, step: Step): State
    requires Enabled(jobs, s, step)
  {
    match step
    case Arrive =>
      var t := s.(now := jobs[s.arrived].arrival, arrived := s.arrived + 1);
      if |s.users| < capacity then Grant(jobs, t, s.arrived) else t.(queue := s.queue + [s.arrived])
    case Finish =>
      var u := s.users[0];
      var t := s.(now := u.end, users := s.users[1..], done := s.done[u.id := u.end]);
      if s.queue != [] && s.queue[0] < |jobs| then Grant(jobs, t.(queue := s.queue[1..]), s.queue[0]) else t
  }

  // ----- The arithmetic -----

  /** Put a number into a sorted sequence. */
  function Insert(xs: seq<real>, x: real): (r: seq<real>)
    ensures |r| == |xs| + 1
  {
    if xs == [] || x < xs[0] then [x] + xs else [xs[0]] + Insert(xs[1..], x)
  }

  /** When each of the units is free again, in order, after the first n jobs, if every job goes to
    * the unit that is free first. */
  function Units(init: real, capacity: nat, jobs: seq<Job>, n: nat): (r: seq<real>)
    requires n <= |jobs|
    ensures |r| == capacity
  {
    if n == 0 || capacity == 0 then seq(capacity, _ => init)
    else
      var free := Units(init, capacity, jobs, n - 1);
      Insert(free[1..], Max(free[0], jobs[n - 1].arrival) + jobs[n - 1].service)
  }

  function Start(init: real, capacity: nat, jobs: seq<Job>, k: nat): real
    requires capacity > 0 && k < |jobs|
  {
    Max(Units(init, capacity, jobs, k)[0], jobs[k].arrival)
  }

  function End(init: real, capacity: nat, jobs: seq<Job>, k: nat): real
    requires capacity > 0 && k < |jobs|
  {
    Start(init, capacity, jobs, k) + jobs[k].service
  }

  /** Requests arrive in order, none before the simulation starts. */
  predicate Ordered(init: real, jobs: seq<Job>) {
    && (forall k :: 0 <= k < |jobs| ==> init <= jobs[k].arrival && 0.0 <= jobs[k].service)
    && (forall j, k :: 0 <= j < k < |jobs| ==> jobs[j].arrival <= jobs[k].arrival)
  }

  predicate Sorted(xs: seq<real>) {
    forall i, j :: 0 <= i < j < |xs| ==> xs[i] <= xs[j]
  }

  lemma {:induction false} InsertSorted(xs: seq<real>, x: real)
    requires Sorted(xs)
    ensures Sorted(Insert(xs, x))
    ensures Insert(xs, x)[0] == if xs == [] || x < xs[0] then x else xs[0]
  {
    if xs != [] && x >= xs[0] {
      InsertSorted(xs[1..], x);
    }
  }

  /** A number goes behind everything that is not greater. */
  lemma {:induction false} InsertBehind(low: seq<real>, xs: seq<real>, x: real)
    requires forall i :: 0 <= i < |low| ==> low[i] <= x
    ensures Insert(low + xs, x) == low + Insert(xs, x)
  {
    if low == [] {
      assert low + xs == xs;
    } else {
      assert (low + xs)[1..] == low[1..] + xs;
      InsertBehind(low[1..], xs, x);
    }
  }

  lemma {:induction false} UnitsSorted(init: real, capacity: nat, jobs: seq<Job>, n: nat)
    requires n <= |jobs|
    ensures Sorted(Units(init, capacity, jobs, n))
  {
    if n > 0 && capacity > 0 {
      UnitsSorted(init, capacity, jobs, n - 1);
      var free := Units(init, capacity, jobs, n - 1);
      InsertSorted(free[1..], Max(free[0], jobs[n - 1].arrival) + jobs[n - 1].service);
    }
  }

  // ----- The event-driven device does the arithmetic -----

  function EndsOf(users: seq<User>): (r: seq<real>)
    ensures |r| == |users|
    ensures forall i :: 0 <= i < |users| ==> r[i] == users[i].end
  {
    if users == [] then [] else [users[0].end] + EndsOf(users[1..])
  }

  lemma {:induction false} ScheduleIsInsert(users: seq<User>, u: User)
    ensures EndsOf(Schedule(users, u)) == Insert(EndsOf(users), u.end)
    ensures forall v :: v in Schedule(users, u) <==> v == u || v in users
  {
    if users != [] && u.end >= users[0].end {
      ScheduleIsInsert(users[1..], u);
      assert users == [users[0]] + users[1..];
      var r := Schedule(users[1..], u);
      assert ([users[0]] + r)[1..] == r;
    } else {
      assert ([u] + users)[1..] == users;
    }
  }

  /** The units as the device shows them: the idle ones are free by now, the others when their
    * users' timeouts fire. */
  predicate Fits(free: seq<real>, idle: nat, users: seq<User>, now: real) {
    && idle + |users| == |free| && (forall i :: 0 <= i < |users| ==> free[idle + i] == users[i].end)
    && (forall i :: 0 <= i < idle ==> free[i] <= now)
    && (forall i :: 0 <= i < |users| ==> now <= users[i].end)
  }

  predicate UnitsInv(init: real, capacity: nat, jobs: seq<Job>, s: State) {
    && |s.ends| <= |jobs|
    && |s.users| <= capacity
    && Fits(Units(init, capacity, jobs, |s.ends|), capacity - |s.users|, s.users, s.now)
  }

  predicate QueueInv(capacity: nat, jobs: seq<Job>, s: State) {
    && s.arrived <= |jobs|
    && |s.ends| + |s.queue| == s.arrived
    && (forall i :: 0 <= i < |s.queue| ==> s.queue[i] == |s.ends| + i)
    && (s.queue != [] ==> |s.users| == capacity)
    && (forall i :: 0 <= i < s.arrived ==> jobs[i].arrival <= s.now)
    && (s.arrived < |jobs| ==> s.now <= jobs[s.arrived].arrival)
  }

  /** Every job granted so far is holding a unit until its end, or done. */
  ghost predicate Held(users: seq<User>, ends: seq<real>, done: map<nat, real>) {
    && (forall u <- users :: u.id < |ends| && ends[u.id] == u.end)
    && (forall id <- done :: id < |ends| && done[id] == ends[id])
    && (forall id: nat :: id < |ends| ==> id in done || User(id, ends[id]) in users)
  }

  ghost predicate HoldInv(s: State) {
    Held(s.users, s.ends, s.done)
  }

  /** Every job granted so far ends when the arithmetic says. */
  predicate ComputedInv(init: real, capacity: nat, jobs: seq<Job>, ends: seq<real>)
    requires capacity > 0 && |ends| <= |jobs|
  {
    forall i :: 0 <= i < |ends| ==> ends[i] == End(init, capacity, jobs, i)
  }

  ghost predicate EndsInv(init: real, capacity: nat, jobs: seq<Job>, s: State)
    requires capacity > 0 && |s.ends| <= |jobs|
  {
    ComputedInv(init, capacity, jobs, s.ends) && HoldInv(s)
  }

  ghost predicate Inv(init: real, capacity: nat, jobs: seq<Job>, s: State)
    requires capacity > 0
  {
    UnitsInv(init, capacity, jobs, s) && QueueInv(capacity, jobs, s) && EndsInv(init, capacity, jobs, s)
  }

  lemma StepKeepsInv(init: real, capacity: nat, jobs: seq<Job>, s: State, step: Step)
    requires capacity > 0 && Ordered(init, jobs) && Inv(init, capacity, jobs, s) && Enabled(jobs, s, step)
    ensures Inv(init, capacity, jobs, Do(capacity, jobs, s, step))
  {
    StepKeepsQueue(capacity, jobs, s, step);
    if step.Arrive? {
      ArriveKeepsInv(init, capacity, jobs, s);
    } else {
      FinishKeepsInv(init, capacity, jobs, s);
    }
  }

  lemma StepKeepsQueue(capacity: nat, jobs: seq<Job>, s: State, step: Step)
    requires capacity > 0 && QueueInv(capacity, jobs, s) && |s.users| <= capacity && Enabled(jobs, s, step)
    requires s.users != [] ==> s.now <= s.users[0].end
    requires forall j, k :: 0 <= j < k < |jobs| ==> jobs[j].arrival <= jobs[k].arrival
    ensures QueueInv(capacity, jobs, Do(capacity, jobs, s, step))
  {
  }

  lemma ArriveKeepsInv(init: real, capacity: nat, jobs: seq<Job>, s: State)
    requires capacity > 0 && Inv(init, capacity, jobs, s) && Enabled(jobs, s, Arrive) && 0.0 <= jobs[s.arrived].service
    ensures var t := Do(capacity, jobs, s, Arrive); UnitsInv(init, capacity, jobs, t) && EndsInv(init, capacity, jobs, t)
  {
    var t := s.(now := jobs[s.arrived].arrival, arrived := s.arrived + 1);
    TimePasses(init, capacity, jobs, s, t);
    if |s.users| < capacity {
      GrantKeepsInv(init, capacity, jobs, t);
    }
  }

  lemma GrantKeepsInv(init: real, capacity: nat, jobs: seq<Job>, s: State)
    requires capacity > 0 && GrantDue(init, capacity, jobs, s) && EndsInv(init, capacity, jobs, s)
    ensures var t := Grant(jobs, s, |s.ends|); UnitsInv(init, capacity, jobs, t) && EndsInv(init, capacity, jobs, t)
  {
    GrantKeepsUnits(init, capacity, jobs, s);
    GrantKeepsEnds(init, capacity, jobs, s);
  }

  lemma TimePasses(init: real, capacity: nat, jobs: seq<Job>, s: State, t: State)
    requires capacity > 0 && Inv(init, capacity, jobs, s)
    requires t == s.(now := t.now, arrived := t.arrived) && s.now <= t.now && (s.users != [] ==> t.now <= s.users[0].end)
    ensures UnitsInv(init, capacity, jobs, t)
  {
    UnitsSorted(init, capacity, jobs, |s.ends|);
  }

  lemma FinishKeepsInv(init: real, capacity: nat, jobs: seq<Job>, s: State)
    requires capacity > 0 && Ordered(init, jobs) && Inv(init, capacity, jobs, s) && Enabled(jobs, s, Finish)
    ensures var t := Do(capacity, jobs, s, Finish); UnitsInv(init, capacity, jobs, t) && EndsInv(init, capacity, jobs, t)
  {
    var u := s.users[0];
    var t := s.(now := u.end, users := s.users[1..], done := s.done[u.id := u.end]);
    FinishKeepsUnits(init, capacity, jobs, s, t);
    if s.queue != [] {
      assert s.queue[0] == |s.ends|;
      GrantKeepsInv(init, capacity, jobs, t.(queue := s.queue[1..]));
    }
  }

  lemma FinishKeepsUnits(init: real, capacity: nat, jobs: seq<Job>, s: State, t: State)
    requires capacity > 0 && UnitsInv(init, capacity, jobs, s) && s.users != []
    requires t.now == s.users[0].end && t.users == s.users[1..] && t.ends == s.ends
    ensures UnitsInv(init, capacity, jobs, t)
    ensures |s.users| == capacity ==> t.now == Units(init, capacity, jobs, |s.ends|)[0]
  {
    hide Units, Insert;
    UnitsSorted(init, capacity, jobs, |s.ends|);
    var free, idle := Units(init, capacity, jobs, |s.ends|), capacity - |s.users|;
    forall i | 0 <= i < |t.users| ensures free[idle + 1 + i] == t.users[i].end >= t.now {
      assert free[idle + (i + 1)] == s.users[i + 1].end && free[idle + 0] == s.users[0].end;
    }
  }

  /** A unit is granted at the very time the arithmetic gives, to the next job in line. */
  predicate GrantDue(init: real, capacity: nat, jobs: seq<Job>, s: State)
    requires capacity > 0
  {
    && UnitsInv(init, capacity, jobs, s)
    && |s.ends| < |jobs| && |s.users| < capacity
    && 0.0 <= jobs[|s.ends|].service && jobs[|s.ends|].arrival <= s.now
    && s.now == Start(init, capacity, jobs, |s.ends|)
  }

  lemma EndsOfFits(free: seq<real>, idle: nat, users: seq<User>, now: real)
    requires Fits(free, idle, users, now) && idle > 0
    ensures free[1..] == free[1..idle] + EndsOf(users)
  {
  }

  lemma UsersEndLater(users: seq<User>, u: User, now: real)
    requires now <= u.end && forall i :: 0 <= i < |users| ==> now <= users[i].end
    ensures var r := Schedule(users, u); forall i :: 0 <= i < |r| ==> now <= r[i].end
  {
    ScheduleIsInsert(users, u);
    var r := Schedule(users, u);
    forall i | 0 <= i < |r| ensures now <= r[i].end {
      assert r[i] in r;
    }
  }

  /** The unit that is free first goes to the user; its end falls among those of the other users. */
  lemma UnitTaken(free: seq<real>, idle: nat, users: seq<User>, now: real, u: User)
    requires Fits(free, idle, users, now) && idle > 0 && now <= u.end
    ensures Fits(Insert(free[1..], u.end), idle - 1, Schedule(users, u), now)
  {
    hide Insert, Schedule;
    ScheduleIsInsert(users, u);
    UsersEndLater(users, u, now);
    EndsOfFits(free, idle, users, now);
    InsertBehind(free[1..idle], EndsOf(users), u.end);
  }

  lemma GrantKeepsUnits(init: real, capacity: nat, jobs: seq<Job>, s: State)
    requires capacity > 0 && GrantDue(init, capacity, jobs, s)
    ensures UnitsInv(init, capacity, jobs, Grant(jobs, s, |s.ends|))
  {
    hide Fits, Insert, Units;
    var k := |s.ends|;
    var u := User(k, s.now + jobs[k].service);
    UnitTaken(Units(init, capacity, jobs, k), capacity - |s.users|, s.users, s.now, u);
    UnitsNext(init, capacity, jobs, k, u.end);
  }

  lemma UnitsNext(init: real, capacity: nat, jobs: seq<Job>, k: nat, end: real)
    requires capacity > 0 && k < |jobs| && end == End(init, capacity, jobs, k)
    ensures Units(init, capacity, jobs, k + 1) == Insert(Units(init, capacity, jobs, k)[1..], end)
  {
  }

  lemma GrantKeepsEnds(init: real, capacity: nat, jobs: seq<Job>, s: State)
    requires capacity > 0 && GrantDue(init, capacity, jobs, s) && EndsInv(init, capacity, jobs, s)
    ensures EndsInv(init, capacity, jobs, Grant(jobs, s, |s.ends|))
  {
    GrantKeepsHolds(jobs, s);
  }

  lemma GrantKeepsHolds(jobs: seq<Job>, s: State)
    requires |s.ends| < |jobs| && HoldInv(s)
    ensures HoldInv(Grant(jobs, s, |s.ends|))
  {
    HeldGrant(s.users, s.ends, s.done, User(|s.ends|, s.now + jobs[|s.ends|].service));
  }

  lemma HeldGrant(users: seq<User>, ends: seq<real>, done: map<nat, real>, u: User)
    requires Held(users, ends, done) && u.id == |ends|
    ensures Held(Schedule(users, u), ends + [u.end], done)
  {
    var (users', ends') := (Schedule(users, u), ends + [u.end]);
    ScheduleIsInsert(users, u);
    forall id: nat | id < |ends'|
      ensures id in done || User(id, ends'[id]) in users'
    {
      assert id == |ends| || id in done || User(id, ends[id]) in users;
    }
    forall v <- users'
      ensures v.id < |ends'| && ends'[v.id] == v.end
    {
      assert v == u || v in users;
    }
  }

  // ----- Whole runs -----

  ghost predicate Reachable(init: real, capacity: nat, jobs: seq<Job>, s: State, n: nat)
    decreases n
  {
    s == Init(init) || (n > 0 && exists r, step :: Reachable(init, capacity, jobs, r, n - 1) && Leads(capacity, jobs, r, step, s))
  }

  ghost predicate Leads(capacity: nat, jobs: seq<Job>, r: State, step: Step, s: State) {
    Enabled(jobs, r, step) && s == Do(capacity, jobs, r, step)
  }

  lemma {:induction false} ReachableInv(init: real, capacity: nat, jobs: seq<Job>, s: State, n: nat)
    requires capacity > 0 && Ordered(init, jobs) && Reachable(init, capacity, jobs, s, n)
    ensures Inv(init, capacity, jobs, s)
    decreases n
  {
    if s == Init(init) {
    } else {
      var r, step :| Reachable(init, capacity, jobs, r, n - 1) && Leads(capacity, jobs, r, step, s);
      ReachableInv(init, capacity, jobs, r, n - 1);
      StepKeepsInv(init, capacity, jobs, r, step);
    }
  }

  /** Whatever the number of units, a job that is done was done when the arithmetic says. */
  lemma DoneWhenComputed(init: real, capacity: nat, jobs: seq<Job>, s: State, n: nat, id: nat)
    requires capacity > 0 && Ordered(init, jobs) && Reachable(init, capacity, jobs, s, n)
    requires id in s.done
    ensures id < |jobs| && s.done[id] == End(init, capacity, jobs, id)
    ensures |s.users| <= capacity
  {
    ReachableInv(init, capacity, jobs, s, n);
  }

  /** The timeouts fire in the order of their ends, and those of equal ends in the order of granting. */
  predicate InOrder(users: seq<User>) {
    forall i, j :: 0 <= i < j < |users| ==> Before(users[i], users[j])
  }

  predicate Before(u: User, v: User) { u.end < v.end || (u.end == v.end && u.id < v.id) }

  lemma {:induction false} ScheduleInOrder(users: seq<User>, u: User)
    requires InOrder(users) && forall v <- users :: v.id < u.id
    ensures InOrder(Schedule(users, u))
    decreases |users|
  {
    if users == [] || u.end < users[0].end {
      assert users != [] ==> Before(u, users[0]);
      hide Schedule;
      FirstInOrder(u, users);
    } else {
      var rest := users[1..];
      assert forall v <- rest :: v in users;
      ScheduleInOrder(rest, u);
      ScheduleIsInsert(rest, u);
      assert Schedule(users, u) == [users[0]] + Schedule(rest, u);
      forall v | v in Schedule(rest, u) ensures Before(users[0], v) {
        if v != u {
          var k :| 0 <= k < |rest| && rest[k] == v;
          assert Before(users[0], users[k + 1]);
        }
      }
      hide Schedule;
      InFront(users[0], Schedule(rest, u));
    }
  }

  lemma FirstInOrder(u: User, users: seq<User>)
    requires InOrder(users) && (users != [] ==> Before(u, users[0]))
    ensures InOrder([u] + users)
  {
    forall v | v in users ensures Before(u, v) {
      var k :| 0 <= k < |users| && users[k] == v;
      assert k > 0 ==> Before(users[0], users[k]);
    }
    InFront(u, users);
  }

  lemma InFront(u: User, users: seq<User>)
    requires InOrder(users) && forall v <- users :: Before(u, v)
    ensures InOrder([u] + users)
  {
    hide Before;
  }

  lemma {:induction false} FirstComeFirst(init: real, capacity: nat, jobs: seq<Job>, s: State, n: nat)
    requires capacity > 0 && Ordered(init, jobs) && Reachable(init, capacity, jobs, s, n)
    ensures InOrder(s.users)
    decreases n
  {
    if s != Init(init) {
      var r, step :| Reachable(init, capacity, jobs, r, n - 1) && Leads(capacity, jobs, r, step, s);
      FirstComeFirst(init, capacity, jobs, r, n - 1);
      ReachableInv(init, capacity, jobs, r, n - 1);
      NextInLine(init, capacity, jobs, r);
      StepInOrder(capacity, jobs, r, step);
    }
  }

  lemma NextInLine(init: real, capacity: nat, jobs: seq<Job>, s: State)
    requires capacity > 0 && Inv(init, capacity, jobs, s)
    ensures forall u <- s.users :: u.id < |s.ends|
    ensures s.queue != [] ==> s.queue[0] == |s.ends|
    ensures |s.users| < capacity ==> s.arrived == |s.ends|
  {
    hide UnitsInv, ComputedInv;
  }

  lemma StepInOrder(capacity: nat, jobs: seq<Job>, s: State, step: Step)
    requires Enabled(jobs, s, step) && InOrder(s.users)
    requires forall u <- s.users :: u.id < |s.ends|
    requires s.queue != [] ==> s.queue[0] == |s.ends|
    requires |s.users| < capacity ==> s.arrived == |s.ends|
    ensures InOrder(Do(capacity, jobs, s, step).users)
  {
    if step.Arrive? {
      if |s.users| < capacity {
        ScheduleInOrder(s.users, User(s.arrived, jobs[s.arrived].arrival + jobs[s.arrived].service));
      }
    } else {
      WithoutFirst(s.users);
      if s.queue != [] && s.queue[0] < |jobs| {
        hide InOrder;
        ScheduleInOrder(s.users[1..], User(s.queue[0], s.users[0].end + jobs[s.queue[0]].service));
      }
    }
  }

  lemma WithoutFirst(users: seq<User>)
    requires InOrder(users) && users != []
    ensures InOrder(users[1..]) && forall u <- users[1..] :: u in users
  {
    hide Before;
  }

  /** An arrival and a timeout at the same time may happen in either order. */
  lemma EitherFirst(jobs: seq<Job>, s: State)
    requires s.users != [] && s.arrived < |jobs| && s.users[0].end == jobs[s.arrived].arrival
    ensures Enabled(jobs, s, Arrive) && Enabled(jobs, s, Finish)
  {
  }

  /** The simulation only stops when every job is done. */
  lemma StopsWhenAllDone(init: real, capacity: nat, jobs: seq<Job>, s: State)
    requires capacity > 0 && Inv(init, capacity, jobs, s)
    requires !Enabled(jobs, s, Arrive) && !Enabled(jobs, s, Finish)
    ensures forall id: nat :: id < |jobs| ==> id in s.done
  {
  }

  /** The event loop: it comes to an end, with every job done when the arithmetic says. */
  method Simulate(init: real, capacity: nat, jobs: seq<Job>) returns (done: map<nat, real>)
    requires capacity > 0 && Ordered(init, jobs)
    ensures forall id: nat :: id in done <==> id < |jobs|
    ensures forall id: nat :: id < |jobs| ==> done[id] == End(init, capacity, jobs, id)
  {
    hide Schedule, Insert;
    var s := Init(init);
    while Enabled(jobs, s, Arrive) || Enabled(jobs, s, Finish)
      invariant Inv(init, capacity, jobs, s)
      decreases 2 * (|jobs| - s.arrived) + |s.users| + |s.queue|
    {
      var step := if Enabled(jobs, s, Finish) then Finish else Arrive;
      StepKeepsInv(init, capacity, jobs, s, step);
      s := Do(capacity, jobs, s, step);
    }
    StopsWhenAllDone(init, capacity, jobs, s);
    return s.done;
  }

  /** With one unit the arithmetic is that of the emulated decoder, so the event-driven device with
    * one unit, the bus, completes its jobs at the very same times. */
  lemma {:induction false} OneUnit(init: real, jobs: seq<Job>, n: nat)
    requires n <= |jobs|
    ensures Units(init, 1, jobs, n) == [Completion(init, jobs[..n])]
  {
    if n > 0 {
      OneUnit(init, jobs, n - 1);
      assert jobs[..n][..n - 1] == jobs[..n - 1];
    }
  }

  lemma BusMatchesEmulation(init: real, jobs: seq<Job>, s: State, n: nat, id: nat)
    requires Ordered(init, jobs) && Reachable(init, 1, jobs, s, n) && id in s.done
    ensures id < |jobs| && s.done[id] == Completion(init, jobs[..id + 1])
  {
    DoneWhenComputed(init, 1, jobs, s, n, id);
    OneUnit(init, jobs, id);
    assert jobs[..id + 1][..id] == jobs[..id];
  }

  // ----- Never more holds than units -----

  /** Jobs among the first n that hold a unit at time x. */
  function Holding(init: real, capacity: nat, jobs: seq<Job>, n: nat, x: real): nat
    requires capacity > 0 && n <= |jobs|
  {
    if n == 0 then 0
    else
      Holding(init, capacity, jobs, n - 1, x)
      + One(Start(init, capacity, jobs, n - 1) <= x < End(init, capacity, jobs, n - 1))
  }

  function Above(xs: seq<real>, x: real): (n: nat)
    ensures n <= |xs|
  {
    if xs == [] then 0 else One(xs[0] > x) + Above(xs[1..], x)
  }

  lemma {:induction false} AboveInsert(xs: seq<real>, y: real, x: real)
    ensures Above(Insert(xs, y), x) == Above(xs, x) + One(y > x)
  {
    if xs != [] && y >= xs[0] {
      AboveInsert(xs[1..], y, x);
      var r := Insert(xs[1..], y);
      assert ([xs[0]] + r)[1..] == r;
    } else {
      assert ([y] + xs)[1..] == xs;
    }
  }

  lemma {:induction false} StartsOrdered(init: real, capacity: nat, jobs: seq<Job>, j: nat, k: nat)
    requires capacity > 0 && Ordered(init, jobs) && j <= k < |jobs|
    ensures Start(init, capacity, jobs, j) <= Start(init, capacity, jobs, k)
    decreases k
  {
    if j < k {
      StartsOrdered(init, capacity, jobs, j, k - 1);
      FirstFreeNeverFalls(init, capacity, jobs, k - 1);
    }
  }

  lemma FirstFreeNeverFalls(init: real, capacity: nat, jobs: seq<Job>, k: nat)
    requires capacity > 0 && k < |jobs| && 0.0 <= jobs[k].service
    ensures Units(init, capacity, jobs, k + 1)[0] >= Units(init, capacity, jobs, k)[0]
  {
    var free, end := Units(init, capacity, jobs, k), End(init, capacity, jobs, k);
    UnitsSorted(init, capacity, jobs, k);
    UnitsNext(init, capacity, jobs, k, end);
    assert Insert(free[1..], end)[0] == if capacity == 1 || end < free[1] then end else free[1];
  }

  /** At a time by which all of these jobs have started, those that still hold are on units that
    * are not free yet. */
  lemma {:induction false} HoldingOnBusyUnits(init: real, capacity: nat, jobs: seq<Job>, n: nat, x: real)
    requires capacity > 0 && n <= |jobs|
    requires forall k :: 0 <= k < n ==> Start(init, capacity, jobs, k) <= x
    ensures Holding(init, capacity, jobs, n, x) <= Above(Units(init, capacity, jobs, n), x)
  {
    if n > 0 {
      HoldingOnBusyUnits(init, capacity, jobs, n - 1, x);
      var free := Units(init, capacity, jobs, n - 1);
      assert free[0] <= Start(init, capacity, jobs, n - 1) <= x;
      AboveInsert(free[1..], End(init, capacity, jobs, n - 1), x);
    }
  }

  /** The jobs among the first n that have started by time x and not ended. */
  function Holders(init: real, capacity: nat, jobs: seq<Job>, n: nat, x: real): set<nat>
    requires capacity > 0
  {
    set k: nat | k < n && k < |jobs| && Start(init, capacity, jobs, k) <= x < End(init, capacity, jobs, k)
  }

  lemma {:induction false} HoldingCounts(init: real, capacity: nat, jobs: seq<Job>, n: nat, x: real)
    requires capacity > 0 && n <= |jobs|
    ensures Holding(init, capacity, jobs, n, x) == |Holders(init, capacity, jobs, n, x)|
  {
    if n == 0 {
      assert Holders(init, capacity, jobs, n, x) == {};
    } else {
      HoldingCounts(init, capacity, jobs, n - 1, x);
      var more := Start(init, capacity, jobs, n - 1) <= x < End(init, capacity, jobs, n - 1);
      OneMoreSize(Holders(init, capacity, jobs, n - 1, x), Holders(init, capacity, jobs, n, x), n - 1, more);
    }
  }

  /** At no time do more jobs hold a unit than there are units. */
  lemma {:induction false} NeverMoreThanCapacity(init: real, capacity: nat, jobs: seq<Job>, n: nat, x: real)
    requires capacity > 0 && Ordered(init, jobs) && n <= |jobs|
    ensures Holding(init, capacity, jobs, n, x) <= capacity
    ensures |Holders(init, capacity, jobs, n, x)| <= capacity
  {
    HoldingCounts(init, capacity, jobs, n, x);
    if n > 0 {
      if Start(init, capacity, jobs, n - 1) <= x {
        forall k | 0 <= k < n
          ensures Start(init, capacity, jobs, k) <= x
        {
          StartsOrdered(init, capacity, jobs, k, n - 1);
        }
        HoldingOnBusyUnits(init, capacity, jobs, n, x);
      } else {
        NeverMoreThanCapacity(init, capacity, jobs, n - 1, x);
      }
    }
  }

  // ----- Decode, then bus -----

  /** The transfers of the decoded requests, in the order in which they reach the bus. */
  function BusJobs(init: real, capacity: nat, jobs: seq<Job>, transfers: seq<real>, order: seq<nat>): seq<Job>
    requires capacity > 0 && |transfers| == |jobs| && forall i :: 0 <= i < |order| ==> order[i] < |jobs|
  {
    seq(|order|, j requires 0 <= j < |order| => Job(End(init, capacity, jobs, order[j]), transfers[order[j]]))
  }

  /** A decode-then-bus request completes no earlier than its arrival plus both its own times, and
    * no earlier than the request before it on the bus plus its transfer. */
  lemma PipelineLowerBound(init: real, capacity: nat, jobs: seq<Job>, transfers: seq<real>, order: seq<nat>, j: nat)
    requires capacity > 0 && |transfers| == |jobs| && j < |order|
    requires forall i :: 0 <= i < |order| ==> order[i] < |jobs|
    ensures var bus := BusJobs(init, capacity, jobs, transfers, order);
      && Completion(init, bus[..j + 1]) >= jobs[order[j]].arrival + jobs[order[j]].service + transfers[order[j]]
      && Completion(init, bus[..j + 1]) >= Completion(init, bus[..j]) + transfers[order[j]]
  {
    var bus := BusJobs(init, capacity, jobs, transfers, order);
    assert bus[..j + 1][..j] == bus[..j];
    assert bus[j] == Job(End(init, capacity, jobs, order[j]), transfers[order[j]]);
  }

  /** A decoder with one unit feeding the bus: the bus job of request k arrives when its decoding
    * is complete. */
  function Tandem(init: real, jobs: seq<Job>, transfers: seq<real>): seq<Job>
    requires |transfers| == |jobs|
  {
    seq(|jobs|, k requires 0 <= k < |jobs| => Job(Completion(init, jobs[..k + 1]), transfers[k]))
  }

  /** Exactly how late the last of a sequence of requests leaves a decoder with one unit and the
    * bus: the greatest, over i <= j, of the arrival of i, the decoding of i to j and the transfers
    * from j on (or the start of the simulation in place of an arrival). */
  lemma TandemClosedForm(init: real, jobs: seq<Job>, transfers: seq<real>)
    requires |transfers| == |jobs| > 0
    requires forall k :: 0 <= k < |jobs| ==> jobs[k].service >= 0.0
    ensures var bus := Tandem(init, jobs, transfers);
      var c := Completion(init, bus);
      && (forall i, j :: 0 <= i <= j < |jobs| ==> c >= Route(jobs, bus, i, j))
      && (forall j :: 0 <= j < |jobs| ==> c >= init + Work(jobs[..j + 1], 0) + Work(bus, j))
      && ((exists i, j :: 0 <= i <= j < |jobs| && c == Route(jobs, bus, i, j))
          || (exists j :: 0 <= j < |jobs| && c == init + Work(jobs[..j + 1], 0) + Work(bus, j)))
  {
    var bus := Tandem(init, jobs, transfers);
    var c := Completion(init, bus);
    ClosedForm(init, bus);
    forall i, j | 0 <= i <= j < |jobs|
      ensures c >= Route(jobs, bus, i, j)
    {
      ClosedForm(init, jobs[..j + 1]);
      assert bus[j].arrival >= jobs[..j + 1][i].arrival + Work(jobs[..j + 1], i);
    }
    forall j | 0 <= j < |jobs|
      ensures c >= init + Work(jobs[..j + 1], 0) + Work(bus, j)
    {
      ClosedForm(init, jobs[..j + 1]);
      assert c >= bus[j].arrival + Work(bus, j);
    }
    if j :| BusySince(init, bus, j) {
      TandemAttained(init, jobs, bus, j);
    } else {
      assert c >= init + Work(jobs[..0 + 1], 0) + Work(bus, 0);
      assert c == init + Work(jobs[..0 + 1], 0) + Work(bus, 0);
    }
  }

  lemma TandemAttained(init: real, jobs: seq<Job>, bus: seq<Job>, j: nat)
    requires |bus| == |jobs| && BusySince(init, bus, j) && bus[j].arrival == Completion(init, jobs[..j + 1])
    ensures
      || (exists i :: 0 <= i <= j && Completion(init, bus) == Route(jobs, bus, i, j))
      || Completion(init, bus) == init + Work(jobs[..j + 1], 0) + Work(bus, j)
  {
    var front := jobs[..j + 1];
    ClosedForm(init, front);
    if i :| BusySince(init, front, i) {
      assert Completion(init, bus) == Route(jobs, bus, i, j);
    }
  }

  function Route(jobs: seq<Job>, bus: seq<Job>, i: nat, j: nat): real
    requires i <= j < |jobs| && |bus| == |jobs|
  {
    jobs[i].arrival + Work(jobs[..j + 1], i) + Work(bus, j)
  }
}
