/** Every step but a raising callback keeps what holds as long as no callback has raised. */
module SlotCalm {
  import opened Options
  import opened SlotProtocol
  import opened SlotInvariants

  /** A step of a run in which no callback has raised, nor does in this step. */
  ghost predicate CalmStep(drive: Drive, s: State, step: Step) {
    Core(drive, s) && Calm(drive, s) && Enabled(drive, s, step) && s.overflows == Do(drive, s, step).overflows
  }

  lemma StepKeepsCalm(drive: Drive, s: State, step: Step)
    requires CalmStep(drive, s, step)
    ensures Calm(drive, Do(drive, s, step))
  {
    NothingReported(drive, s, step);
    hide Do, Calm, Core;
    var u := Do(drive, s, step);
    if step.Respond? {
      ResponseIsCallback(drive, s, step.n);
      CallbackKeepsCalm(drive, s, u, step.n);
    } else if step.SetLength? {
      LengthIsCallback(drive, s, step.p);
      CallbackKeepsCalm(drive, s, u, s.procs[step.p].listener.n);
    } else if ByLoop(step) {
      LoopIsTurn(drive, s, step);
      LoopKeepsCalm(drive, s, u);
    } else {
      ThreadStepKeepsCalm(drive, s, step);
    }
  }

  predicate ByLoop(step: Step) { step.Take? || step.Aim? || step.Issue? || step.Release? }

  lemma NothingReported(drive: Drive, s: State, step: Step)
    requires CalmStep(drive, s, step)
    ensures !step.Expire? && !step.Report?
  {
    hide Do;
    assert forall n <- s.commands :: CommandQuiet(s, n);
    forall p: nat | p < |s.procs| ensures !s.procs[p].listener.Reporting? {
      assert ListenerQuiet(drive, s, p);
    }
  }

  // -- A callback that writes its own slot

  /** Of an awaited command the callback writes the payload, or sets the length and ends it; nothing
    * else changes. */
  ghost predicate Callback(drive: Drive, s: State, u: State, n: nat) {
    && SameRequests(s, u) && n in s.commands && s.commands[n].proc < |s.procs| && Awaited(s, n)
    && var (idx, p, value) := (s.tickets[n].idx, s.commands[n].proc, Value(drive, s.tickets[n].key));
    && u.slots == s.slots[idx := u.slots[idx]] && Holds(u, idx, value)
    && u.procs == s.procs[p := s.procs[p].(listener := u.procs[p].listener)]
    && (if u.slots[idx].len == -1 then u.commands == s.commands && u.procs[p].listener == Writing(n, idx)
        else u.commands == Removed(s.commands, n) && u.slots[idx].len == |value| && u.procs[p].listener == Releasing)
  }

  lemma ResponseIsCallback(drive: Drive, s: State, n: nat)
    requires CalmStep(drive, s, Respond(n))
    ensures Callback(drive, s, Do(drive, s, Respond(n)), n)
  {
    assert CommandQuiet(s, n) && Live(s, n) && Awaited(s, n);
    assert Handler(s, n) == Some(n);
  }

  lemma LengthIsCallback(drive: Drive, s: State, p: nat)
    requires CalmStep(drive, s, SetLength(p))
    ensures Callback(drive, s, Do(drive, s, SetLength(p)), s.procs[p].listener.n)
  {
    var n := s.procs[p].listener.n;
    assert ListenerQuiet(drive, s, p) && ProcessOk(drive, s, p);
    assert CommandQuiet(s, n) && Live(s, n) && Awaited(s, n);
  }

  lemma CallbackKeepsCalm(drive: Drive, s: State, u: State, n: nat)
    requires Core(drive, s) && Calm(drive, s) && Callback(drive, s, u, n)
    ensures Calm(drive, u)
  {
    forall p: nat | p < |u.procs| ensures ListenerQuiet(drive, u, p) {
      CallbackKeepsListener(drive, s, u, n, p);
    }
    assert forall m <- u.commands :: CommandQuiet(s, m);
    CallbackKeepsTickets(drive, s, u, n);
    CallbackKeepsRequests(drive, s, u, n);
  }

  lemma CallbackKeepsListener(drive: Drive, s: State, u: State, n: nat, p: nat)
    requires Core(drive, s) && Calm(drive, s) && Callback(drive, s, u, n) && p < |s.procs|
    ensures ListenerQuiet(drive, u, p)
  {
    assert ListenerQuiet(drive, s, p) && ProcessOk(drive, s, p);
    if s.procs[p].listener.Writing? && p != s.commands[n].proc {
      var m := s.procs[p].listener.n;
      assert Live(s, m) && Awaited(s, m);
    }
  }

  lemma CallbackKeepsTickets(drive: Drive, s: State, u: State, n: nat)
    requires Core(drive, s) && Calm(drive, s) && Callback(drive, s, u, n)
    ensures TicketInv(u)
  {
    forall m: nat | Live(u, m) ensures Awaited(u, m) {
      assert Live(s, m) && Awaited(s, m) && CommandOk(s, n);
    }
    forall t: nat | Unanswered(u, t) ensures Carried(u, t) {
      assert Unanswered(s, t) && Carried(s, t);
    }
  }

  lemma CallbackKeepsRequests(drive: Drive, s: State, u: State, n: nat)
    requires Core(drive, s) && Calm(drive, s) && Callback(drive, s, u, n)
    ensures RequestInv(drive, u)
  {
    forall t | t in u.threads ensures Fine(drive, u, t) {
      assert Fine(drive, s, t);
    }
  }

  // -- The loop of a process

  /** Only head, stages and listeners change, and no command becomes live or ceases to be. */
  ghost predicate LoopTurn(s: State, u: State) {
    && u == s.(head := u.head, commands := u.commands, procs := u.procs) && |u.procs| == |s.procs|
    && (forall n: nat :: Live(u, n) <==> Live(s, n))
    && (forall n <- u.commands :: CommandQuiet(u, n))
    && (forall p :: 0 <= p < |u.procs| ==> u.procs[p].listener == s.procs[p].listener || u.procs[p].listener.Listening?)
  }

  lemma LoopIsTurn(drive: Drive, s: State, step: Step)
    requires CalmStep(drive, s, step) && ByLoop(step)
    ensures LoopTurn(s, Do(drive, s, step))
  {
    assert forall n <- s.commands :: CommandQuiet(s, n) && CommandOk(s, n);
    hide Core, Calm, Do;
    match step
    case Take(p) => TakeIsTurn(drive, s, p);
    case Release(p) => ReleaseIsTurn(drive, s, p);
    case Aim(n) =>
    case Issue(n) => IssueIsTurn(drive, s, n);
  }

  lemma TakeIsTurn(drive: Drive, s: State, p: nat)
    requires Enabled(drive, s, Take(p)) && forall m <- s.commands :: CommandQuiet(s, m) && CommandOk(s, m)
    ensures LoopTurn(s, Do(drive, s, Take(p)))
  {
  }

  lemma ReleaseIsTurn(drive: Drive, s: State, p: nat)
    requires Enabled(drive, s, Release(p)) && forall m <- s.commands :: CommandQuiet(s, m)
    ensures LoopTurn(s, Do(drive, s, Release(p)))
  {
  }

  lemma IssueIsTurn(drive: Drive, s: State, n: nat)
    requires Enabled(drive, s, Issue(n)) && forall m <- s.commands :: CommandQuiet(s, m)
    ensures LoopTurn(s, Do(drive, s, Issue(n)))
  {
    hide Outstanding;
    forall m | m in s.commands ensures CommandQuiet(Do(drive, s, Issue(n)), m) {
      assert CommandQuiet(s, m);
    }
  }

  lemma LoopKeepsCalm(drive: Drive, s: State, u: State)
    requires Calm(drive, s) && LoopTurn(s, u)
    ensures Calm(drive, u)
  {
    forall p: nat | p < |u.procs| ensures ListenerQuiet(drive, u, p) {
      assert ListenerQuiet(drive, s, p);
    }
    forall n: nat | Live(u, n) ensures Awaited(u, n) {
      assert Awaited(s, n);
    }
    forall t: nat | Unanswered(u, t) ensures Carried(u, t) {
      assert Unanswered(s, t) && Carried(s, t);
    }
    forall t | t in u.threads ensures Fine(drive, u, t) {
      assert Fine(drive, s, t);
    }
  }

  // -- A request thread

  /** What a turn of request thread `t` leaves alone: the processes, and what other threads see. */
  ghost predicate ThreadTurn(s: State, u: State, t: nat, idx: nat) {
    && u.commands == s.commands && u.procs == s.procs && u.head == s.head
    && |s.tickets| <= |u.tickets| && (forall n :: 0 <= n < |s.tickets| ==> u.tickets[n] == s.tickets[n])
    && |u.slots| == |s.slots| && (forall i :: 0 <= i < |s.slots| && i != idx ==> u.slots[i] == s.slots[i])
    && (t in s.threads ==> s.threads[t].idx == idx)
    && forall r: nat :: r != t ==> (r in u.threads <==> r in s.threads) && (r in s.threads ==> u.threads[r] == s.threads[r])
  }

  /** A ticket of another request. */
  lemma OtherStaysAwaited(s: State, u: State, t: nat, idx: nat, n: nat)
    requires OwnerInv(s) && ThreadTurn(s, u, t, idx) && (t !in s.threads ==> idx in s.available)
    requires Awaited(s, n) && s.tickets[n].requester != t
    ensures Awaited(u, n)
  {
    var r := s.tickets[n].requester;
    assert r in s.threads;
  }

  /** Thread `t` does not wait unanswered before the turn; after it, it is in order, and if it waits
    * it waits for a new ticket of its own. */
  ghost predicate GoodTurn(drive: Drive, s: State, u: State, t: nat, idx: nat) {
    && ThreadTurn(s, u, t, idx) && (t !in s.threads ==> idx in s.available)
    && !Unanswered(s, t)
    && (t in u.threads ==> Fine(drive, u, t) && (Unanswered(u, t) ==> Carried(u, t)))
    && (forall n :: |s.tickets| <= n < |u.tickets| ==> Awaited(u, n))
    && AvailableUnset(u) && AnswersRight(drive, u)
  }

  lemma ThreadKeepsCalm(drive: Drive, s: State, u: State, t: nat, idx: nat)
    requires Core(drive, s) && Calm(drive, s) && GoodTurn(drive, s, u, t, idx)
    ensures Calm(drive, u)
  {
    forall p: nat | p < |u.procs| ensures ListenerQuiet(drive, u, p) {
      assert ListenerQuiet(drive, s, p) && ProcessOk(drive, s, p);
      if s.procs[p].listener.Writing? {
        assert Live(s, s.procs[p].listener.n) && Awaited(s, s.procs[p].listener.n);
      }
    }
    forall n <- u.commands ensures CommandQuiet(u, n) {
      assert CommandQuiet(s, n);
    }
    forall n: nat | Live(u, n) ensures Awaited(u, n) {
      if n < |s.tickets| || n in s.commands {
        assert Live(s, n) && Awaited(s, n);
        OtherStaysAwaited(s, u, t, idx, n);
      }
    }
    ThreadKeepsRequests(drive, s, u, t, idx);
  }

  lemma ThreadKeepsRequests(drive: Drive, s: State, u: State, t: nat, idx: nat)
    requires Core(drive, s) && Calm(drive, s) && GoodTurn(drive, s, u, t, idx)
    ensures forall r: nat :: Unanswered(u, r) ==> Carried(u, r)
    ensures RequestInv(drive, u)
  {
    forall r: nat | Unanswered(u, r) ensures Carried(u, r) {
      if r != t {
        assert Unanswered(s, r) && Carried(s, r);
      }
    }
    forall r | r in u.threads ensures Fine(drive, u, r) {
      if r != t {
        assert Fine(drive, s, r);
      }
    }
  }

  /** What a thread may assume of the others when it takes a turn. */
  ghost predicate MayTurn(drive: Drive, s: State, t: nat) {
    && AvailableUnset(s) && AnswersRight(drive, s)
    && (t in s.threads ==> Fine(drive, s, t) && s.threads[t].idx !in s.available)
  }

  lemma BeginIsGood(drive: Drive, s: State, t: nat, key: Key, op: Op, idx: nat)
    requires MayTurn(drive, s, t) && Enabled(drive, s, Begin(t, key, op, idx))
    ensures GoodTurn(drive, s, Do(drive, s, Begin(t, key, op, idx)), t, idx)
  {
  }

  lemma EnqueueIsGood(drive: Drive, s: State, t: nat)
    requires MayTurn(drive, s, t) && Enabled(drive, s, Enqueue(t)) && s.head <= |s.tickets|
    ensures GoodTurn(drive, s, Do(drive, s, Enqueue(t)), t, s.threads[t].idx)
  {
  }

  lemma SeeIsGood(drive: Drive, s: State, t: nat)
    requires MayTurn(drive, s, t) && Enabled(drive, s, See(t))
    ensures GoodTurn(drive, s, Do(drive, s, See(t)), t, s.threads[t].idx)
  {
  }

  lemma CopyIsGood(drive: Drive, s: State, t: nat)
    requires MayTurn(drive, s, t) && Enabled(drive, s, Copy(t))
    ensures GoodTurn(drive, s, Do(drive, s, Copy(t)), t, s.threads[t].idx)
  {
  }

  lemma ClearIsGood(drive: Drive, s: State, t: nat)
    requires MayTurn(drive, s, t) && Enabled(drive, s, Clear(t))
    ensures GoodTurn(drive, s, Do(drive, s, Clear(t)), t, s.threads[t].idx)
  {
  }

  lemma ReturnIsGood(drive: Drive, s: State, t: nat)
    requires MayTurn(drive, s, t) && Enabled(drive, s, Return(t))
    ensures GoodTurn(drive, s, Do(drive, s, Return(t)), t, s.threads[t].idx)
  {
  }

  lemma ThreadStepKeepsCalm(drive: Drive, s: State, step: Step)
    requires CalmStep(drive, s, step) && !step.Respond? && !step.SetLength? && !ByLoop(step)
    requires !step.Expire? && !step.Report?
    ensures Calm(drive, Do(drive, s, step))
  {
    assert s.head <= |s.tickets| && forall t: nat :: MayTurn(drive, s, t);
    hide Calm, Core, MayTurn, GoodTurn;
    var u := Do(drive, s, step);
    match step
    case Begin(t, key, op, idx) =>
      BeginIsGood(drive, s, t, key, op, idx);
      ThreadKeepsCalm(drive, s, u, t, idx);
    case Enqueue(t) =>
      EnqueueIsGood(drive, s, t);
      ThreadKeepsCalm(drive, s, u, t, s.threads[t].idx);
    case See(t) =>
      SeeIsGood(drive, s, t);
      ThreadKeepsCalm(drive, s, u, t, s.threads[t].idx);
    case Copy(t) =>
      CopyIsGood(drive, s, t);
      ThreadKeepsCalm(drive, s, u, t, s.threads[t].idx);
    case Clear(t) =>
      ClearIsGood(drive, s, t);
      ThreadKeepsCalm(drive, s, u, t, s.threads[t].idx);
    case Return(t) =>
      ReturnIsGood(drive, s, t);
      ThreadKeepsCalm(drive, s, u, t, s.threads[t].idx);
    case Reject =>
  }
}
