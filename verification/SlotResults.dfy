/** Whole runs of the shared-memory slots: who owns a slot, what requests get, and that none is
  * forgotten.
  */
module SlotResults {
  import opened Options
  import opened SlotProtocol
  import opened SlotInvariants
  import opened SlotCalm

  lemma StepKeepsInv(drive: Drive, s: State, step: Step)
    requires Inv(drive, s) && Enabled(drive, s, step)
    ensures Inv(drive, Do(drive, s, step))
  {
    hide Do, Core, Calm;
    StepKeepsCore(drive, s, step);
    if Do(drive, s, step).overflows == 0 {
      OverflowsCount(drive, s, step);
      StepKeepsCalm(drive, s, step);
    }
  }

  /** Reached from an initial state by some steps of any of the threads and processes. */
  ghost predicate Reachable(drive: Drive, s: State, steps: nat)
    decreases steps
  {
    IsInit(s) || (steps > 0 && exists p, step :: Reachable(drive, p, steps - 1) && Leads(drive, p, step, s))
  }

  ghost predicate Leads(drive: Drive, p: State, step: Step, s: State) {
    Enabled(drive, p, step) && s == Do(drive, p, step)
  }

  lemma {:induction false} ReachableInv(drive: Drive, s: State, steps: nat)
    requires Reachable(drive, s, steps)
    ensures Inv(drive, s)
    decreases steps
  {
    if IsInit(s) {
      InitInv(drive, s);
    } else {
      var p, step :| Reachable(drive, p, steps - 1) && Leads(drive, p, step, s);
      ReachableInv(drive, p, steps - 1);
      StepKeepsInv(drive, p, step);
    }
  }

  /** In every reachable state each slot is available, or owned by exactly one request: sixteen in
    * all. Available slots are unset as long as every value asked for fits a slot. */
  lemma SlotsArePartitioned(drive: Drive, s: State, steps: nat, idx: nat)
    requires Reachable(drive, s, steps) && idx < 16
    ensures |s.slots| == 16 && |s.available| + |s.threads| == 16
    ensures idx in s.available ==> forall t <- s.threads :: s.threads[t].idx != idx
    ensures idx !in s.available ==>
      exists t :: t in s.threads && s.threads[t].idx == idx && forall u <- s.threads :: s.threads[u].idx == idx ==> u == t
    ensures AskedFit(drive, s) && idx in s.available ==> s.slots[idx].len == -1
  {
    ReachableInv(drive, s, steps);
    if idx !in s.available {
      var t := OwnerOf(s, idx);
    }
  }

  lemma OwnerOf(s: State, idx: nat) returns (t: nat)
    requires OwnerInv(s) && idx < MAX_SLOT_NUM && idx !in s.available
    ensures t in s.threads && s.threads[t].idx == idx
  {
    var owned := map t | t in s.threads :: s.threads[t].idx;
    assert owned.Keys == s.threads.Keys;
    assert |owned| == |s.threads|;
    t := SomeOwner(MAX_SLOT_NUM, s.available, owned, idx);
  }

  lemma SomeOwner(n: nat, available: set<nat>, owned: map<nat, nat>, idx: nat) returns (t: nat)
    requires (forall i <- available :: i < n) && (forall t <- owned :: owned[t] < n && owned[t] !in available)
    requires forall t, u | t in owned && u in owned && owned[t] == owned[u] :: t == u
    requires |available| + |owned| == n && idx < n && idx !in available
    ensures t in owned && owned[t] == idx
  {
    InjectiveImage(owned);
    AllInUse(n, available, owned.Values, idx);
    t :| t in owned && owned[t] == idx;
  }

  /** Two disjoint sets of slot numbers, `n` together, hold every slot number. */
  lemma AllInUse(n: nat, a: set<nat>, b: set<nat>, idx: nat)
    requires a !! b && |a| + |b| == n && idx < n
    requires forall i <- a + b :: i < n
    ensures idx in a || idx in b
  {
    NumbersBelow(n, a + b);
  }

  lemma {:induction false} InjectiveImage(m: map<nat, nat>)
    requires forall t, u | t in m && u in m && m[t] == m[u] :: t == u
    ensures |m.Values| == |m|
    decreases |m|
  {
    if m != map[] {
      var t :| t in m;
      var rest := Removed(m, t);
      assert m == rest[t := m[t]];
      InjectiveImage(rest);
      assert m.Values == rest.Values + {m[t]};
    }
  }

  /** As long as every value asked for fits a slot, whatever a request returns is made from the
    * drive's value for its own key. */
  lemma AnswersAreRight(drive: Drive, s: State, steps: nat, i: nat)
    requires Reachable(drive, s, steps) && AskedFit(drive, s) && i < |s.answers|
    ensures var Answer(key, op, body) := s.answers[i];
      var value := if key in drive then drive[key] else "";
      && (op == Get || op == GetSmart(0) || value == "" ==> body == value)
      && (op.GetSmart? && op.size > 0 && value != "" ==> |body| == op.size && forall k :: 0 <= k < |body| ==> body[k] == '\0')
  {
    ReachableInv(drive, s, steps);
    assert Right(drive, s.answers[i]);
  }

  /** Each request is answered once, as what it was begun as: a step begins at most one, answers at most
    * one, which then is over, and changes the key, the kind or the slot of none. */
  lemma StepKeepsRequests(drive: Drive, s: State, step: Step)
    requires Enabled(drive, s, step)
    ensures var u := Do(drive, s, step);
      && (step.Begin? ==>
            && step.t !in s.threads && u.threads.Keys == s.threads.Keys + {step.t} && u.answers == s.answers
            && u.threads[step.t] == Thread(step.key, step.op, step.idx, Popped))
      && (step.Return? ==>
            && step.t in s.threads && u.threads.Keys == s.threads.Keys - {step.t}
            && |u.answers| == |s.answers| + 1 && u.answers[..|s.answers|] == s.answers
            && u.answers[|s.answers|].key == s.threads[step.t].key && u.answers[|s.answers|].op == s.threads[step.t].op)
      && (!step.Begin? && !step.Return? ==> u.threads.Keys == s.threads.Keys && u.answers == s.answers)
      && forall t :: t in s.threads && t in u.threads ==>
           && u.threads[t].key == s.threads[t].key && u.threads[t].op == s.threads[t].op && u.threads[t].idx == s.threads[t].idx
  {
  }

  /** A value that does not fit is never returned, whatever else happens. */
  lemma OversizeNeverRight(drive: Drive, s: State, steps: nat, i: nat)
    requires Reachable(drive, s, steps) && i < |s.answers|
    requires s.answers[i].op == Get || s.answers[i].op == GetSmart(0)
    requires s.answers[i].key in drive && |drive[s.answers[i].key]| > 1024 * 1024
    ensures !Right(drive, s.answers[i])
  {
    ReachableInv(drive, s, steps);
    assert AnswerOk(s.answers[i]);
  }

  /** A request is refused exactly when sixteen others are in progress. */
  lemma RefusedIff(drive: Drive, s: State, steps: nat)
    requires Reachable(drive, s, steps)
    ensures Enabled(drive, s, Reject) <==> |s.threads| == 16
  {
    ReachableInv(drive, s, steps);
  }

  /** No process ever has more commands outstanding than the queue depth of its client. */
  lemma {:induction false} DepthRespected(drive: Drive, s: State, steps: nat, p: nat)
    requires Reachable(drive, s, steps) && p < |s.procs|
    ensures Outstanding(s, p) <= 16 && FirstInv(s)
    decreases steps
  {
    if IsInit(s) {
      assert InTableOf(s, p) == {};
    } else {
      var r, step :| Reachable(drive, r, steps - 1) && Leads(drive, r, step, s);
      ReachableInv(drive, r, steps - 1);
      DepthRespected(drive, r, steps - 1, p);
      OutstandingAfter(drive, r, step, p);
      StepKeepsFirst(drive, r, step);
    }
  }

  /** The command with sequence number 0 was issued by its own process. */
  predicate FirstInv(s: State) {
    forall p :: 0 <= p < |s.procs| && s.procs[p].first.Some? ==> FirstOk(s, p, s.procs[p].first.value)
  }

  predicate FirstOk(s: State, p: nat, n: nat) { n < s.head && (n in s.commands ==> s.commands[n].proc == p) }

  lemma StepKeepsFirst(drive: Drive, s: State, step: Step)
    requires Core(drive, s) && FirstInv(s) && Enabled(drive, s, step)
    ensures FirstInv(Do(drive, s, step))
  {
    CommandsStay(drive, s, step);
    FirstStays(drive, s, step);
    assert step.Issue? ==> CommandOk(s, step.n);
    var u := Do(drive, s, step);
    hide Do, Core, Enabled;
    forall p | 0 <= p < |u.procs| && u.procs[p].first.Some? ensures FirstOk(u, p, u.procs[p].first.value) {
      assert s.procs[p].first.Some? ==> FirstOk(s, p, s.procs[p].first.value);
    }
  }

  /** A command stays with the process that took it. */
  lemma CommandsStay(drive: Drive, s: State, step: Step)
    requires Enabled(drive, s, step)
    ensures var u := Do(drive, s, step);
      && u.head == s.head + One(step.Take?)
      && forall n <- u.commands :: (n in s.commands && u.commands[n].proc == s.commands[n].proc) || n == s.head < u.head
  {
    hide Outstanding;
  }

  lemma FirstStays(drive: Drive, s: State, step: Step)
    requires Enabled(drive, s, step)
    ensures var u := Do(drive, s, step);
      forall p :: 0 <= p < |u.procs| && u.procs[p].first != s.procs[p].first ==>
        step.Issue? && s.commands[step.n].proc == p && u.procs[p].first == Some(step.n)
  {
    hide Outstanding;
  }

  /** The commands of a process in its pending table. */
  function InTableOf(s: State, p: nat): set<nat> {
    set n <- s.commands | s.commands[n].proc == p && InTable(s, n)
  }

  lemma OutstandingAfter(drive: Drive, s: State, step: Step, p: nat)
    requires Enabled(drive, s, step) && p < |s.procs| && FirstInv(s) && Outstanding(s, p) <= 16
    ensures Outstanding(Do(drive, s, step), p) <= 16
  {
    var u := Do(drive, s, step);
    var (was, now) := (InTableOf(s, p), InTableOf(u, p));
    assert Outstanding(s, p) == |was| + One(s.procs[p].listener.Releasing?);
    assert Outstanding(u, p) == |now| + One(u.procs[p].listener.Releasing?);
    TableAfter(drive, s, step, p);
    if step.Issue? && s.commands[step.n].proc == p {
      SubsetSize(now, was + {step.n});
    } else if u.procs[p].listener.Releasing? && !s.procs[p].listener.Releasing? {
      var n :| n in was && n !in now;
      SubsetSize(now, was - {n});
    } else {
      SubsetSize(now, was);
    }
  }

  /** A command enters the table when it is issued; a release is only due after one has left it. */
  lemma TableAfter(drive: Drive, s: State, step: Step, p: nat)
    requires Enabled(drive, s, step) && p < |s.procs| && FirstInv(s)
    ensures var (u, n) := (Do(drive, s, step), if step.Issue? then step.n else 0);
      && InTableOf(u, p) <= (if step.Issue? && s.commands[n].proc == p then InTableOf(s, p) + {n} else InTableOf(s, p))
      && (step.Issue? ==> u.procs[p].listener == s.procs[p].listener)
      && (u.procs[p].listener.Releasing? && !s.procs[p].listener.Releasing? ==>
            exists m :: m in InTableOf(s, p) && m !in InTableOf(u, p))
  {
    match step
    case Respond(n) => HandledTable(drive, s, n, p);
    case Report(q) => ReportedTable(s, q, p);
    case SetLength(q) =>
      var (n, idx) := (s.procs[q].listener.n, s.procs[q].listener.idx);
      var t := Put(s, idx, s.slots[idx].(len := |Value(drive, s.tickets[n].key)|));
      assert InTableOf(t, p) == InTableOf(s, p);
      FinishTable(t, n, p);
    case Take(q) => TakeTable(drive, s, q, p);
    case _ => LoopTable(drive, s, step, p);
  }

  /** What a step of a listener does to the table of some process. */
  ghost predicate LeavesTable(s: State, u: State, p: nat)
    requires p < |s.procs| && p < |u.procs|
  {
    && InTableOf(u, p) <= InTableOf(s, p)
    && (u.procs[p].listener.Releasing? && !s.procs[p].listener.Releasing? ==>
          exists m :: m in InTableOf(s, p) && m !in InTableOf(u, p))
  }

  lemma FinishTable(s: State, n: nat, p: nat)
    requires Runs(s, n) && p < |s.procs|
    ensures LeavesTable(s, Finish(s, n), p)
  {
    assert n !in InTableOf(Finish(s, n), p);
    assert s.commands[n].proc == p && s.commands[n].stage.Issued? ==> n in InTableOf(s, p);
  }

  lemma HandledTable(drive: Drive, s: State, n: nat, p: nat)
    requires Enabled(drive, s, Respond(n)) && p < |s.procs|
    ensures LeavesTable(s, Handled(drive, s, n), p)
  {
    if s.commands[n].proc == p && s.commands[n].stage.Issued? {
      assert n in InTableOf(s, p);
    }
  }

  lemma ReportedTable(s: State, q: nat, p: nat)
    requires q < |s.procs| && (Blamed(s, q).Some? ==> Addressed(s, Blamed(s, q).value)) && p < |s.procs| && FirstInv(s)
    ensures LeavesTable(s, Reported(s, q), p)
  {
    if Blamed(s, q).Some? && s.procs[q].first == Blamed(s, q) && InTable(s, Blamed(s, q).value) && p == q {
      assert Blamed(s, q).value in InTableOf(s, p);
    }
  }

  lemma TakeTable(drive: Drive, s: State, q: nat, p: nat)
    requires Enabled(drive, s, Take(q)) && p < |s.procs|
    ensures LeavesTable(s, Do(drive, s, Take(q)), p)
  {
  }

  lemma LoopTable(drive: Drive, s: State, step: Step, p: nat)
    requires Enabled(drive, s, step) && p < |s.procs|
    requires !step.Respond? && !step.Report? && !step.SetLength? && !step.Take?
    ensures var (u, n) := (Do(drive, s, step), if step.Issue? then step.n else 0);
      && InTableOf(u, p) <= (if step.Issue? && s.commands[n].proc == p then InTableOf(s, p) + {n} else InTableOf(s, p))
      && (u.procs[p].listener.Releasing? ==> s.procs[p].listener.Releasing?)
  {
  }

  /** No request is forgotten: with a process at all, and as long as every value asked for fits, some
    * step towards an answer can be taken while a request is in progress. */
  lemma NeverStuck(drive: Drive, s: State, steps: nat)
    requires Reachable(drive, s, steps) && s.procs != [] && s.threads != map[] && AskedFit(drive, s)
    ensures exists step :: Enabled(drive, s, step) && !step.Begin? && !step.Reject?
  {
    ReachableInv(drive, s, steps);
    var t :| t in s.threads;
    var step := NextStep(drive, s, t);
  }

  lemma NextStep(drive: Drive, s: State, t: nat) returns (step: Step)
    requires Core(drive, s) && Calm(drive, s) && t in s.threads && s.procs != []
    ensures Enabled(drive, s, step) && !step.Begin? && !step.Reject?
  {
    assert Fine(drive, s, t);
    match s.threads[t].phase
    case Popped => step := Enqueue(t);
    case Seen(_) => step := Copy(t);
    case Copied(_) => step := Clear(t);
    case Cleared(_) => step := Return(t);
    case Polling(n) =>
      if s.slots[s.threads[t].idx].len >= 0 {
        step := See(t);
      } else {
        assert Unanswered(s, t) && Carried(s, t);
        if n in s.commands {
          step := CommandStep(drive, s, n);
        } else {
          assert ProcessOk(drive, s, 0);
          step := Take(0);
          if s.procs[0].busy.Some? {
            step := CommandStep(drive, s, s.procs[0].busy.value);
          }
        }
      }
  }

  lemma CommandStep(drive: Drive, s: State, n: nat) returns (step: Step)
    requires Core(drive, s) && Calm(drive, s) && n in s.commands
    ensures Enabled(drive, s, step) && !step.Begin? && !step.Reject?
  {
    assert CommandQuiet(s, n) && CommandOk(s, n);
    var p := s.commands[n].proc;
    assert Live(s, n) && Awaited(s, n);
    if s.commands[n].stage.Held? {
      step := Aim(n);
    } else if s.commands[n].stage.Ready? && Outstanding(s, p) < QUEUE_DEPTH {
      step := Issue(n);
    } else if s.commands[n].stage.Issued? && s.procs[p].listener.Listening? {
      step := Respond(n);
    } else {
      step := ListenerStep(drive, s, p);
    }
  }

  /** A process whose listener is at work, or whose queue is full, has work for its listener. */
  lemma ListenerStep(drive: Drive, s: State, p: nat) returns (step: Step)
    requires Core(drive, s) && Calm(drive, s) && p < |s.procs|
    requires !s.procs[p].listener.Listening? || Outstanding(s, p) >= QUEUE_DEPTH
    ensures Enabled(drive, s, step) && !step.Begin? && !step.Reject?
  {
    assert ProcessOk(drive, s, p) && ListenerQuiet(drive, s, p);
    match s.procs[p].listener
    case Writing(_, _) => step := SetLength(p);
    case Releasing => step := Release(p);
    case Listening =>
      var pending := set n <- s.commands | s.commands[n].proc == p && InTable(s, n);
      assert |pending| >= QUEUE_DEPTH;
      var n :| n in pending;
      assert CommandQuiet(s, n) && CommandOk(s, n) && Live(s, n) && Awaited(s, n);
      step := Respond(n);
  }
}
