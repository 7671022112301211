/** A value longer than a slot: what it does to its own request and to others, and that without one
  * nothing goes wrong.
  */
module SlotOversize {
  import opened Options
  import opened SlotProtocol
  import opened SlotInvariants
  import opened SlotResults

  // ----- Requests that nobody will answer -----

  /** Whatever may still be written goes to other slots than that of this waiting request. */
  ghost predicate Stranded(s: State, t: nat) {
    && Unanswered(s, t)
    && var idx := s.threads[t].idx;
    && (forall n: nat | Coming(s, n) :: n < |s.tickets| && s.tickets[n].idx != idx)
    && (forall p :: 0 <= p < |s.procs| ==> Elsewhere(s, s.procs[p], idx))
  }

  /** A callback of its own is still to come for this ticket. */
  predicate Coming(s: State, n: nat) {
    s.head <= n < |s.tickets| || (n in s.commands && !s.commands[n].stage.Orphaned? && !s.commands[n].stage.Raised?)
  }

  predicate Elsewhere(s: State, me: Process, idx: nat) {
    && (me.delegate.Some? ==> me.delegate.value < |s.tickets| && s.tickets[me.delegate.value].idx != idx)
    && (me.first.Some? && InTable(s, me.first.value) ==>
         me.first.value < |s.tickets| && s.tickets[me.first.value].idx != idx)
    && (me.listener.Writing? ==> me.listener.idx != idx)
  }

  /** A stranded request polls for ever: no step of anyone changes that. */
  lemma StrandedStays(drive: Drive, s: State, step: Step, t: nat)
    requires Core(drive, s) && Stranded(s, t) && Enabled(drive, s, step)
    ensures Stranded(Do(drive, s, step), t)
  {
    StrandedWaits(drive, s, step, t);
    var (u, idx) := (Do(drive, s, step), s.threads[t].idx);
    forall n: nat | Coming(u, n) ensures n < |u.tickets| && u.tickets[n].idx != idx {
      OthersComing(drive, s, step, t, n);
    }
    forall p | 0 <= p < |u.procs| ensures Elsewhere(u, u.procs[p], idx) {
      StaysElsewhere(drive, s, step, t, p);
    }
  }

  lemma StrandedWaits(drive: Drive, s: State, step: Step, t: nat)
    requires Core(drive, s) && Stranded(s, t) && Enabled(drive, s, step)
    ensures var u := Do(drive, s, step); Unanswered(u, t) && u.threads[t] == s.threads[t]
  {
    hide Outstanding, Handled, Reported, Finish, ThreadDo;
    match step
    case Respond(n) => HandledWaits(drive, s, n, t);
    case Report(p) => ReportedWaits(drive, s, p, t);
    case SetLength(p) => LengthWaits(drive, s, p, t);
    case _ =>
      if ByThread(step) {
        ThreadWaits(drive, s, step, t);
      }
  }

  lemma ThreadWaits(drive: Drive, s: State, step: Step, t: nat)
    requires OwnerInv(s) && Unanswered(s, t) && Enabled(drive, s, step) && ByThread(step)
    ensures var u := ThreadDo(drive, s, step); Unanswered(u, t) && u.threads[t] == s.threads[t]
  {
  }

  lemma LengthWaits(drive: Drive, s: State, p: nat, t: nat)
    requires Core(drive, s) && Stranded(s, t) && Enabled(drive, s, SetLength(p))
    ensures var u := Do(drive, s, SetLength(p)); Unanswered(u, t) && u.threads[t] == s.threads[t]
  {
    assert Elsewhere(s, s.procs[p], s.threads[t].idx);
  }

  lemma ReportedWaits(drive: Drive, s: State, p: nat, t: nat)
    requires Core(drive, s) && Stranded(s, t) && Enabled(drive, s, Report(p))
    ensures var u := Reported(s, p); Unanswered(u, t) && u.threads[t] == s.threads[t]
  {
    assert Elsewhere(s, s.procs[p], s.threads[t].idx);
  }

  lemma HandledWaits(drive: Drive, s: State, n: nat, t: nat)
    requires Core(drive, s) && Stranded(s, t) && Enabled(drive, s, Respond(n))
    ensures var u := Handled(drive, s, n); Unanswered(u, t) && u.threads[t] == s.threads[t]
  {
    hide Handled;
    HandledElsewhere(drive, s, n, t);
  }

  /** Handling a response leaves the slot of a stranded request alone. */
  lemma HandledElsewhere(drive: Drive, s: State, n: nat, t: nat)
    requires Core(drive, s) && Stranded(s, t) && Enabled(drive, s, Respond(n))
    ensures var (u, idx, q) := (Handled(drive, s, n), s.threads[t].idx, s.commands[n].proc);
      && u.slots[idx] == s.slots[idx]
      && u.procs == s.procs[q := s.procs[q].(listener := u.procs[q].listener)]
      && (u.procs[q].listener.Writing? ==> u.procs[q].listener.idx != idx)
  {
    hide SlotsInv, OwnerInv, SizeInv, IndexInv;
    assert s.commands[n].stage.Issued? ==> Coming(s, n);
    assert Elsewhere(s, s.procs[s.commands[n].proc], s.threads[t].idx);
  }

  lemma HandledComing(drive: Drive, s: State, n: nat, m: nat)
    requires Enabled(drive, s, Respond(n))
    ensures Coming(Handled(drive, s, n), m) ==> Coming(s, m)
    ensures InTable(Handled(drive, s, n), m) ==> InTable(s, m)
  {
  }

  lemma OthersComing(drive: Drive, s: State, step: Step, t: nat, n: nat)
    requires Core(drive, s) && Stranded(s, t) && Enabled(drive, s, step) && Coming(Do(drive, s, step), n)
    ensures var u := Do(drive, s, step); n < |u.tickets| && u.tickets[n].idx != s.threads[t].idx
  {
    hide Outstanding, Handled, Reported, Finish;
    match step
    case Respond(m) => HandledComing(drive, s, m, n);
    case Report(p) => ReportedComing(s, p, n);
    case _ => OthersStayComing(drive, s, step, t, n);
  }

  lemma ReportedComing(s: State, p: nat, m: nat)
    requires p < |s.procs| && (Blamed(s, p).Some? ==> Addressed(s, Blamed(s, p).value))
    ensures Coming(Reported(s, p), m) ==> Coming(s, m)
  {
  }

  lemma OthersStayComing(drive: Drive, s: State, step: Step, t: nat, n: nat)
    requires Core(drive, s) && Stranded(s, t) && Enabled(drive, s, step) && Coming(Do(drive, s, step), n)
    requires !step.Respond? && !step.Report?
    ensures var u := Do(drive, s, step); n < |u.tickets| && u.tickets[n].idx != s.threads[t].idx
  {
    hide Outstanding, Handled, Reported;
    assert n < |s.tickets| ==> Coming(s, n);
  }

  lemma StaysElsewhere(drive: Drive, s: State, step: Step, t: nat, p: nat)
    requires Core(drive, s) && Stranded(s, t) && Enabled(drive, s, step) && p < |s.procs|
    ensures var u := Do(drive, s, step); Elsewhere(u, u.procs[p], s.threads[t].idx)
  {
    hide Outstanding, Handled, Reported, Finish, ThreadDo, SlotsInv, OwnerInv, SizeInv;
    assert Elsewhere(s, s.procs[p], s.threads[t].idx) && ProcessOk(drive, s, p);
    match step
    case Respond(n) => HandledStaysElsewhere(drive, s, n, t, p);
    case Report(q) => ReportedElsewhere(drive, s, q, t, p);
    case SetLength(q) => LengthElsewhere(drive, s, q, t, p);
    case Aim(n) => AimElsewhere(drive, s, n, t, p);
    case Issue(n) => IssueElsewhere(drive, s, n, t, p);
    case Take(q) => assert s.procs[p].first.Some? && InTable(s, s.procs[p].first.value) ==> CommandOk(s, s.procs[p].first.value);
    case _ =>
      if ByThread(step) {
        ThreadKeepsProcesses(drive, s, step);
      }
  }

  lemma AimElsewhere(drive: Drive, s: State, n: nat, t: nat, p: nat)
    requires Stranded(s, t) && Enabled(drive, s, Aim(n)) && p < |s.procs|
    ensures var u := Do(drive, s, Aim(n)); Elsewhere(u, u.procs[p], s.threads[t].idx)
  {
    assert Elsewhere(s, s.procs[p], s.threads[t].idx) && Coming(s, n);
  }

  lemma IssueElsewhere(drive: Drive, s: State, n: nat, t: nat, p: nat)
    requires Stranded(s, t) && Enabled(drive, s, Issue(n)) && p < |s.procs|
    ensures var u := Do(drive, s, Issue(n)); Elsewhere(u, u.procs[p], s.threads[t].idx)
  {
    hide Outstanding;
    assert Elsewhere(s, s.procs[p], s.threads[t].idx) && Coming(s, n);
  }

  lemma LengthElsewhere(drive: Drive, s: State, q: nat, t: nat, p: nat)
    requires Core(drive, s) && Stranded(s, t) && Enabled(drive, s, SetLength(q)) && p < |s.procs|
    ensures var u := Do(drive, s, SetLength(q)); Elsewhere(u, u.procs[p], s.threads[t].idx)
  {
    assert Elsewhere(s, s.procs[p], s.threads[t].idx);
  }

  lemma HandledStaysElsewhere(drive: Drive, s: State, n: nat, t: nat, p: nat)
    requires Core(drive, s) && Stranded(s, t) && Enabled(drive, s, Respond(n)) && p < |s.procs|
    ensures var u := Handled(drive, s, n); Elsewhere(u, u.procs[p], s.threads[t].idx)
  {
    hide Handled;
    HandledElsewhere(drive, s, n, t);
    var first := s.procs[p].first;
    if first.Some? {
      HandledComing(drive, s, n, first.value);
    }
    assert Elsewhere(s, s.procs[p], s.threads[t].idx);
  }

  lemma ReportedElsewhere(drive: Drive, s: State, q: nat, t: nat, p: nat)
    requires Core(drive, s) && Stranded(s, t) && Enabled(drive, s, Report(q)) && p < |s.procs|
    ensures var u := Reported(s, q); Elsewhere(u, u.procs[p], s.threads[t].idx)
  {
    assert Elsewhere(s, s.procs[p], s.threads[t].idx) && ProcessOk(drive, s, p);
  }

  ghost predicate NoneStranded(s: State) { forall t <- s.threads :: !Stranded(s, t) }

  /** While every value asked for fits, no request is stranded. */
  lemma FittingNeverStrands(drive: Drive, s: State, steps: nat)
    requires Reachable(drive, s, steps) && AskedFit(drive, s)
    ensures NoneStranded(s)
  {
    ReachableInv(drive, s, steps);
    forall t | t in s.threads ensures !Stranded(s, t) {
      if Unanswered(s, t) {
        var n := s.threads[t].phase.n;
        assert Carried(s, t) && Awaited(s, n);
        assert n in s.commands ==> CommandQuiet(s, n);
        assert Coming(s, n);
      }
    }
  }

  // ----- Runs in which it goes wrong -----

  lemma Extend(drive: Drive, s: State, n: nat, step: Step) returns (u: State)
    requires Reachable(drive, s, n) && Enabled(drive, s, step)
    ensures u == Do(drive, s, step) && Reachable(drive, u, n + 1)
  {
    u := Do(drive, s, step);
    assert Leads(drive, s, step, u);
  }

  /** A request for the key gets this slot and puts its ticket. */
  function Asked(s: State, t: nat, key: Key, idx: nat): State {
    s.(available := Without(s.available, idx), threads := s.threads[t := Thread(key, Get, idx, Polling(|s.tickets|))],
       tickets := s.tickets + [Ticket(key, idx, t)])
  }

  lemma Ask(drive: Drive, s: State, n: nat, t: nat, key: Key, idx: nat) returns (u: State)
    requires Reachable(drive, s, n) && t !in s.threads && idx in s.available && idx < |s.slots|
    ensures u == Asked(s, t, key, idx) && Reachable(drive, u, n + 2)
  {
    hide Reachable;
    var v := Extend(drive, s, n, Begin(t, key, Get, idx));
    u := Extend(drive, v, n + 1, Enqueue(t));
    assert u.threads == s.threads[t := Thread(key, Get, idx, Polling(|s.tickets|))];
  }

  /** The first process takes the next ticket and issues its command. */
  function Started(s: State): State
    requires s.procs != []
  {
    var me := s.procs[0];
    s.(head := s.head + 1, commands := s.commands[s.head := Command(0, Issued)],
       procs := s.procs[0 := me.(delegate := Some(s.head), first := if me.first.None? then Some(s.head) else me.first)])
  }

  lemma Begun(drive: Drive, s: State, n: nat) returns (u: State)
    requires Reachable(drive, s, n) && s.procs != [] && s.procs[0].busy.None? && s.head < |s.tickets|
    requires !s.procs[0].listener.Releasing?
    requires |s.commands| + 1 < QUEUE_DEPTH
    ensures u == Started(s) && Reachable(drive, u, n + 3)
  {
    hide Reachable, Outstanding;
    var k := s.head;
    var v := Extend(drive, s, n, Take(0));
    var w := Extend(drive, v, n + 1, Aim(k));
    FewOutstanding(w, 0);
    assert w.commands == s.commands[k := Command(0, Ready)];
    u := Extend(drive, w, n + 2, Issue(k));
    assert u.commands == s.commands[k := Command(0, Issued)];
    assert u.procs == Started(s).procs;
  }

  lemma FewOutstanding(s: State, p: nat)
    requires p < |s.procs| && !s.procs[p].listener.Releasing?
    ensures Outstanding(s, p) <= |s.commands|
  {
    var pending := set n <- s.commands | s.commands[n].proc == p && InTable(s, n);
    assert pending <= s.commands.Keys;
    SubsetSize(pending, s.commands.Keys);
  }

  function Unset(s: State, idx: nat, len: int): State
    requires idx < |s.slots|
  {
    Put(s, idx, s.slots[idx].(len := len))
  }

  /** A request whose slot has length 0 returns the empty string. */
  function Ended(s: State, t: nat): State
    requires At(s, t)
  {
    var th := s.threads[t];
    Unset(s, th.idx, -1).(threads := Removed(s.threads, t), available := Freed(s, th.idx),
      answers := s.answers + [Answer(th.key, Get, "")])
  }

  lemma End(drive: Drive, s: State, n: nat, t: nat) returns (u: State)
    requires Reachable(drive, s, n) && At(s, t) && s.threads[t].phase.Polling? && s.threads[t].op == Get
    requires s.slots[s.threads[t].idx].len == 0
    ensures u == Ended(s, t) && Reachable(drive, u, n + 4)
  {
    hide Reachable;
    var th := s.threads[t];
    var v := Extend(drive, s, n, See(t));
    var w := Extend(drive, v, n + 1, Copy(t));
    assert w.threads[t] == th.(phase := Copied(""));
    var x := Extend(drive, w, n + 2, Clear(t));
    u := Extend(drive, x, n + 3, Return(t));
    assert u.threads == Removed(s.threads, t);
  }

  /** The response to command `n` of the first process does not fit. */
  predicate Overflows(drive: Drive, s: State, n: nat) {
    && s.procs != [] && n in s.commands && s.commands[n] == Command(0, Issued) && Addressed(s, n)
    && |s.slots[s.tickets[n].idx].payload| == MAX_PAYLOAD_LEN
    && s.procs[0].listener.Listening? && s.tickets[n].key in drive && !Fits(drive, s.tickets[n].key)
  }

  /** Command 0 itself is blamed: its request is answered. */
  lemma BlameItself(drive: Drive, s: State, i: nat, n: nat) returns (u: State)
    requires Reachable(drive, s, i) && Overflows(drive, s, n) && s.procs[0].first == Some(n)
    ensures u == Unset(s, s.tickets[n].idx, 0).(commands := Removed(s.commands, n), overflows := s.overflows + 1)
    ensures Reachable(drive, u, i + 3)
  {
    hide Reachable;
    var v := Extend(drive, s, i, Respond(n));
    assert v == Overflow(s, n);
    var w := Extend(drive, v, i + 1, Report(0));
    assert w == Unset(s, s.tickets[n].idx, 0).(commands := Removed(s.commands, n), overflows := s.overflows + 1,
      procs := s.procs[0 := s.procs[0].(listener := Releasing)]);
    u := Extend(drive, w, i + 2, Release(0));
    assert u.procs == s.procs;
  }

  /** With command 0 done, the request whose callback is the delegate is blamed. */
  lemma BlameLatest(drive: Drive, s: State, i: nat, n: nat) returns (u: State)
    requires Reachable(drive, s, i) && Overflows(drive, s, n)
    requires s.procs[0].first.Some? && s.procs[0].first.value !in s.commands
    requires s.procs[0].delegate.Some? && Addressed(s, s.procs[0].delegate.value)
    ensures u == Unset(s, s.tickets[s.procs[0].delegate.value].idx, 0).(
      commands := s.commands[n := Command(0, Raised)], overflows := s.overflows + 1)
    ensures Reachable(drive, u, i + 2)
  {
    hide Reachable;
    var v := Extend(drive, s, i, Respond(n));
    assert v == Overflow(s, n);
    assert Blamed(v, 0) == s.procs[0].delegate;
    u := Extend(drive, v, i + 1, Report(0));
    assert u.procs == s.procs;
  }

  /** A request alone in the queue is asked and its command issued. */
  lemma Requested(drive: Drive, s: State, i: nat, t: nat, key: Key, idx: nat) returns (u: State)
    requires Reachable(drive, s, i) && t !in s.threads && idx in s.available && idx < |s.slots|
    requires s.head == |s.tickets| && |s.commands| + 1 < QUEUE_DEPTH
    requires s.procs != [] && s.procs[0].busy.None? && s.procs[0].listener.Listening?
    ensures Reachable(drive, u, i + 5) && u == Started(Asked(s, t, key, idx))
    ensures u.threads == s.threads[t := Thread(key, Get, idx, Polling(s.head))]
    ensures u.tickets == s.tickets + [Ticket(key, idx, t)] && u.head == |u.tickets|
  {
    hide Reachable;
    var a := Ask(drive, s, i, t, key, idx);
    u := Begun(drive, a, i + 2);
  }

  /** Nothing is in progress, and `done` commands of the first process are done. */
  ghost predicate Resting(s: State, done: nat) {
    && |s.slots| > 1 && (forall i :: 0 <= i < 2 ==> s.slots[i].len == -1 && |s.slots[i].payload| == MAX_PAYLOAD_LEN)
    && s.threads == map[] && 0 in s.available && 1 in s.available
    && s.commands == map[] && |s.tickets| == s.head == done
    && s.procs != [] && s.procs[0] == (if done == 0 then Process(None, None, None, Listening)
                                       else Process(None, Some(done - 1), Some(0), Listening))
    && forall p :: 0 < p < |s.procs| ==> s.procs[p] == Process(None, None, None, Listening)
  }

  /** The slots, apart from one, and the other processes are as they were. */
  predicate OneTouched(s: State, u: State, idx: nat) {
    && |u.slots| == |s.slots| && |u.procs| == |s.procs|
    && (forall i :: 0 <= i < |s.slots| && i != idx ==> u.slots[i] == s.slots[i])
    && (forall p :: 0 < p < |s.procs| ==> u.procs[p] == s.procs[p])
  }

  lemma LoneBlamed(drive: Drive, s: State, key: Key) returns (u: State)
    requires Reachable(drive, s, 0) && Resting(s, 0) && key in drive && !Fits(drive, key)
    ensures Reachable(drive, u, 8) && OneTouched(s, u, 0) && u.slots[0] == s.slots[0].(len := 0)
    ensures u.threads == map[0 := Thread(key, Get, 0, Polling(0))] && u.available == Without(s.available, 0)
    ensures u.commands == map[] && u.tickets == [Ticket(key, 0, 0)] && u.head == 1 && u.answers == s.answers
    ensures u.procs != [] && u.procs[0] == Process(None, Some(0), Some(0), Listening)
  {
    hide Reachable;
    var b := Requested(drive, s, 0, 0, key, 0);
    assert b.commands == map[0 := Command(0, Issued)];
    u := BlameItself(drive, b, 5, 0);
    assert u.commands == map[];
  }

  /** One request alone, for a value that does not fit: its own command 0 is blamed and it returns
    * the empty string. */
  lemma LoneOversize(drive: Drive, s: State, key: Key) returns (u: State, n: nat)
    requires Reachable(drive, s, 0) && Resting(s, 0) && s.answers == [] && key in drive && !Fits(drive, key)
    ensures Reachable(drive, u, n) && Resting(u, 1) && u.answers == [Answer(key, Get, "")]
  {
    hide Reachable;
    var c := LoneBlamed(drive, s, key);
    u := End(drive, c, 8, 0);
    n := 12;
    assert u.threads == map[];
  }

  /** Request 2 holds slot 1 and sees length 0, though the response to its command is still to come. */
  predicate SecondBlamed(s: State, key: Key) {
    && |s.slots| > 1 && s.slots[1].len == 0 && |s.slots[1].payload| == MAX_PAYLOAD_LEN
    && 2 in s.threads && s.threads[2] == Thread(key, Get, 1, Polling(2))
    && |s.tickets| == 3 && s.tickets[2] == Ticket(key, 1, 2)
    && s.commands == map[1 := Command(0, Raised), 2 := Command(0, Issued)]
    && s.procs != [] && s.procs[0] == Process(None, Some(2), Some(0), Listening)
  }

  /** Two more requests for the value, and the response to the first of them: the second is answered
    * in its place, and the first is stranded. */
  lemma OversizeStrands(drive: Drive, s: State, i: nat, key: Key) returns (u: State, n: nat)
    requires Reachable(drive, s, i) && Resting(s, 1) && key in drive && !Fits(drive, key)
    ensures Reachable(drive, u, n) && Stranded(u, 1) && SecondBlamed(u, key)
  {
    hide Reachable;
    var c := Requested(drive, s, i, 1, key, 0);
    var d := Requested(drive, c, i + 5, 2, key, 1);
    assert d.commands == map[1 := Command(0, Issued), 2 := Command(0, Issued)];
    assert d.tickets[1] == Ticket(key, 0, 1) && d.tickets[2] == Ticket(key, 1, 2);
    u := BlameLatest(drive, d, i + 10, 1);
    n := i + 12;
  }

  /** Then the second returns, and the response to its command comes: the slot it has given back is
    * set while available. */
  lemma LateErrorSetsSlot(drive: Drive, s: State, i: nat, key: Key) returns (u: State, n: nat)
    requires Reachable(drive, s, i) && SecondBlamed(s, key) && key in drive && !Fits(drive, key)
    ensures Reachable(drive, u, n) && 1 in u.available && !AvailableUnset(u)
  {
    hide Reachable;
    var c := End(drive, s, i, 2);
    u := BlameLatest(drive, c, i + 4, 2);
    n := i + 6;
    assert u.slots[1].len == 0;
  }

  /** And while a command whose callback raised is in the table, its timeout can hit anyone: any later
    * request, whatever the drive holds for its key, may get the empty string. */
  lemma TimeoutHitsOthers(drive: Drive, s: State, i: nat, raised: nat, t: nat, key: Key, idx: nat) returns (u: State, n: nat)
    requires Reachable(drive, s, i) && raised in s.commands && s.commands[raised] == Command(0, Raised)
    requires s.procs != [] && s.procs[0].busy.None? && s.procs[0].listener.Listening?
    requires s.procs[0].first.Some? && s.procs[0].first.value !in s.commands && s.procs[0].first.value < s.head
    requires t !in s.threads && idx in s.available && idx < |s.slots|
    requires s.head == |s.tickets| && s.head !in s.commands && |s.commands| + 1 < QUEUE_DEPTH
    ensures Reachable(drive, u, n) && u.answers == s.answers + [Answer(key, Get, "")]
  {
    hide Reachable;
    var c := Requested(drive, s, i, t, key, idx);
    assert c.commands[raised] == Command(0, Raised);
    var d := Extend(drive, c, i + 5, Expire(0));
    assert Blamed(d, 0) == Some(s.head) && d.tickets[s.head].idx == idx;
    var e := Extend(drive, d, i + 6, Report(0));
    assert e.slots[idx].len == 0 && e.threads == c.threads;
    u := End(drive, e, i + 7, t);
    n := i + 11;
  }

  /** Every value the drive has fits a slot. */
  ghost predicate AllFit(drive: Drive) { forall key <- drive :: |drive[key]| <= 1024 * 1024 }

  /** A fresh server with one process. */
  lemma Fresh() returns (s: State)
    ensures IsInit(s) && s.procs != []
  {
    var available: set<nat> := {0, 1, 2, 3, 4, 5, 6, 7, 8, 9, 10, 11, 12, 13, 14, 15};
    var slots := seq(MAX_SLOT_NUM, _ => Slot(-1, Zeros(MAX_PAYLOAD_LEN)));
    s := State(slots, available, map[], [], 0, map[], [Process(None, None, None, Listening)], [], 0);
  }

  lemma FittingIsSound(drive: Drive, s: State, steps: nat)
    requires AllFit(drive) && Reachable(drive, s, steps)
    ensures AnswersRight(drive, s) && AvailableUnset(s) && NoneStranded(s)
  {
    assert AskedFit(drive, s);
    ReachableInv(drive, s, steps);
    FittingNeverStrands(drive, s, steps);
  }

  /** Exactly when the front end is right, about all drives and all runs: answers are the drive's own,
    * available slots are unset, and no request polls for ever, each if and only if every value of
    * the drive fits a slot. */
  lemma SoundIff(drive: Drive)
    ensures AllFit(drive) <==> forall s, n :: Reachable(drive, s, n) ==> AnswersRight(drive, s)
    ensures AllFit(drive) <==> forall s, n :: Reachable(drive, s, n) ==> AvailableUnset(s)
    ensures AllFit(drive) <==> forall s, n :: Reachable(drive, s, n) ==> NoneStranded(s)
  {
    if AllFit(drive) {
      forall s, n | Reachable(drive, s, n) ensures AnswersRight(drive, s) && AvailableUnset(s) && NoneStranded(s) {
        FittingIsSound(drive, s, n);
      }
    } else {
      var key :| key in drive && !Fits(drive, key);
      var s := Fresh();
      hide Reachable, IsInit;
      var a, i := LoneOversize(drive, s, key);
      assert !Right(drive, a.answers[0]);
      var b, j := OversizeStrands(drive, a, i, key);
      assert Stranded(b, 1) && 1 in b.threads;
      var c, k := LateErrorSetsSlot(drive, b, j, key);
    }
  }
}
