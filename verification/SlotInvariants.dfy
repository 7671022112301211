/** What holds in every run of the shared-memory slots and that every step keeps it, and what holds
  * as long as no callback has raised.
  */
module SlotInvariants {
  import opened Options
  import opened SlotProtocol

  // ----- What holds in every run -----

  predicate SlotOk(slot: Slot) {
    -1 <= slot.len <= MAX_PAYLOAD_LEN && |slot.payload| == MAX_PAYLOAD_LEN
  }

  predicate SlotsInv(s: State) {
    |s.slots| == MAX_SLOT_NUM && forall i :: 0 <= i < MAX_SLOT_NUM ==> SlotOk(s.slots[i])
  }

  /** Every slot is available, or owned by exactly one request. */
  ghost predicate OwnerInv(s: State) {
    && (forall i <- s.available :: i < MAX_SLOT_NUM)
    && (forall t <- s.threads :: s.threads[t].idx < MAX_SLOT_NUM && s.threads[t].idx !in s.available)
    && (forall t, u | t in s.threads && u in s.threads && s.threads[t].idx == s.threads[u].idx :: t == u)
    && |s.available| + |s.threads| == MAX_SLOT_NUM
  }

  /** The loop of a process and its command in hand belong together; what is written fits. */
  predicate ProcessOk(drive: Drive, s: State, p: nat) {
    && p < |s.procs|
    && var me := s.procs[p];
    && (me.busy.Some? ==> Runs(s, me.busy.value) && s.commands[me.busy.value].proc == p && InHand(s, me.busy.value))
    && (me.delegate.Some? ==> me.delegate.value < |s.tickets|)
    && (me.first.Some? ==> me.first.value < |s.tickets|)
    && (me.listener.Writing? ==> Writes(drive, s, p, me.listener.n, me.listener.idx))
  }

  predicate InHand(s: State, n: nat) {
    n in s.commands && (s.commands[n].stage.Held? || s.commands[n].stage.Ready?)
  }

  predicate Writes(drive: Drive, s: State, p: nat, n: nat, idx: nat) {
    && Runs(s, n) && s.commands[n].proc == p && !InHand(s, n) && !s.commands[n].stage.Raised?
    && idx < MAX_SLOT_NUM && |Value(drive, s.tickets[n].key)| <= MAX_PAYLOAD_LEN
  }

  predicate CommandOk(s: State, n: nat) {
    && n in s.commands && n < s.head && s.commands[n].proc < |s.procs|
    && (InHand(s, n) ==> s.procs[s.commands[n].proc].busy == Some(n))
  }

  ghost predicate IndexInv(drive: Drive, s: State) {
    && s.head <= |s.tickets|
    && (forall n :: 0 <= n < |s.tickets| ==> s.tickets[n].idx < MAX_SLOT_NUM)
    && (forall n <- s.commands :: CommandOk(s, n))
    && (forall p: nat :: p < |s.procs| ==> ProcessOk(drive, s, p))
  }

  predicate PhaseOk(phase: Phase) {
    match phase
    case Popped => true
    case Polling(_) => true
    case Seen(plen) => plen <= MAX_PAYLOAD_LEN
    case Copied(payload) => |payload| <= MAX_PAYLOAD_LEN
    case Cleared(payload) => |payload| <= MAX_PAYLOAD_LEN
  }

  /** A request that is answered with the payload itself. */
  predicate Verbatim(op: Op) { op == Get || op == GetSmart(0) }

  predicate AnswerOk(a: Answer) { Verbatim(a.op) ==> |a.body| <= MAX_PAYLOAD_LEN }

  ghost predicate SizeInv(s: State) {
    && (forall t <- s.threads :: PhaseOk(s.threads[t].phase))
    && (forall i :: 0 <= i < |s.answers| ==> AnswerOk(s.answers[i]))
  }

  predicate Fits(drive: Drive, key: Key) { |Value(drive, key)| <= MAX_PAYLOAD_LEN }

  /** Every value asked for so far fits a slot. */
  ghost predicate AskedFit(drive: Drive, s: State) {
    forall n :: 0 <= n < |s.tickets| ==> Fits(drive, s.tickets[n].key)
  }

  ghost predicate Core(drive: Drive, s: State) {
    SlotsInv(s) && OwnerInv(s) && IndexInv(drive, s) && SizeInv(s) && (s.overflows > 0 ==> !AskedFit(drive, s))
  }

  // ----- What holds as long as no callback has raised -----

  /** This ticket is on its way: in the queue, or in a command. */
  predicate Live(s: State, n: nat) {
    s.head <= n < |s.tickets| || n in s.commands
  }

  /** The request that put this ticket waits for it with the length still unset. */
  predicate Awaited(s: State, n: nat) {
    && n < |s.tickets| && At(s, s.tickets[n].requester)
    && var (ticket, th) := (s.tickets[n], s.threads[s.tickets[n].requester]);
    && th.phase == Polling(n) && th.key == ticket.key && th.idx == ticket.idx && s.slots[th.idx].len == -1
  }

  predicate Unanswered(s: State, t: nat) {
    At(s, t) && s.threads[t].phase.Polling? && s.slots[s.threads[t].idx].len == -1
  }

  /** The ticket of a request that waits unanswered is on its way. */
  predicate Carried(s: State, t: nat) {
    && t in s.threads && s.threads[t].phase.Polling?
    && var n := s.threads[t].phase.n;
    Live(s, n) && n < |s.tickets| && s.tickets[n].requester == t
  }

  /** The slot's payload starts with this value. */
  predicate Holds(s: State, idx: nat, value: Bytes) {
    idx < |s.slots| && value <= s.slots[idx].payload
  }

  /** No error is being reported, and what is written goes to the command's own slot. */
  predicate ListenerQuiet(drive: Drive, s: State, p: nat) {
    && p < |s.procs| && !s.procs[p].listener.Reporting?
    && (s.procs[p].listener.Writing? ==>
         var (n, idx) := (s.procs[p].listener.n, s.procs[p].listener.idx);
         n < |s.tickets| && idx == s.tickets[n].idx && Holds(s, idx, Value(drive, s.tickets[n].key)))
  }

  predicate CommandQuiet(s: State, n: nat) {
    n in s.commands && !s.commands[n].stage.Raised? && !s.commands[n].stage.Orphaned?
  }

  /** What a request in each phase can rely on. */
  predicate Fine(drive: Drive, s: State, t: nat) {
    && At(s, t)
    && var th := s.threads[t];
    && var len := s.slots[th.idx].len;
    && var value := Value(drive, th.key);
    match th.phase
    case Popped => len == -1
    case Polling(_) => len >= 0 ==> len == |value| && Holds(s, th.idx, value)
    case Seen(plen) => len == plen == |value| && Holds(s, th.idx, value)
    case Copied(payload) => payload == value
    case Cleared(payload) => payload == value && len == -1
  }

  /** A get, or a getsmart without a size, is answered with the drive's value, with nothing for an absent
    * key. With a size it is answered with so many zeros, but with nothing for an empty value. */
  predicate Right(drive: Drive, a: Answer) {
    var value := if a.key in drive then drive[a.key] else "";
    if a.op == Get || a.op == GetSmart(0) || value == "" then a.body == value
    else |a.body| == a.op.size && forall k :: 0 <= k < |a.body| ==> a.body[k] == '\0'
  }

  ghost predicate AnswersRight(drive: Drive, s: State) {
    forall i :: 0 <= i < |s.answers| ==> Right(drive, s.answers[i])
  }

  ghost predicate AvailableUnset(s: State) {
    forall i <- s.available :: i < |s.slots| && s.slots[i].len == -1
  }

  ghost predicate QuietInv(drive: Drive, s: State) {
    && (forall p: nat :: p < |s.procs| ==> ListenerQuiet(drive, s, p))
    && (forall n <- s.commands :: CommandQuiet(s, n))
  }

  /** The tickets on their way are exactly those of the requests that wait unanswered. */
  ghost predicate TicketInv(s: State) {
    && (forall n | Live(s, n) :: Awaited(s, n))
    && (forall t | Unanswered(s, t) :: Carried(s, t))
  }

  ghost predicate RequestInv(drive: Drive, s: State) {
    AvailableUnset(s) && AnswersRight(drive, s) && forall t <- s.threads :: Fine(drive, s, t)
  }

  ghost predicate Calm(drive: Drive, s: State) {
    QuietInv(drive, s) && TicketInv(s) && RequestInv(drive, s)
  }

  ghost predicate Inv(drive: Drive, s: State) {
    Core(drive, s) && (s.overflows == 0 ==> Calm(drive, s))
  }

  // ----- Every step keeps what holds in every run -----

  lemma InitInv(drive: Drive, s: State)
    requires IsInit(s)
    ensures Inv(drive, s)
  {
    hide IsInit, Calm;
    InitOwners(s);
    InitIndex(drive, s);
    InitCalm(drive, s);
    InitEmpty(s);
  }

  lemma InitEmpty(s: State)
    requires IsInit(s)
    ensures SlotsInv(s) && SizeInv(s) && s.overflows == 0
  {
  }

  /** A set of numbers below `n` has at most `n` of them, and `n` only if it has all. */
  lemma {:induction false} NumbersBelow(n: nat, a: set<nat>)
    requires forall i <- a :: i < n
    ensures |a| <= n
    ensures |a| == n <==> forall i: nat :: i < n ==> i in a
  {
    if n == 0 {
      assert a == {};
    } else {
      NumbersBelow(n - 1, Without(a, n - 1));
      if n - 1 in a {
        WithoutSize(a, n - 1);
        assert forall i: nat :: i < n - 1 ==> (i in Without(a, n - 1) <==> i in a);
      } else {
        assert Without(a, n - 1) == a;
      }
    }
  }

  lemma InitOwners(s: State)
    requires IsInit(s)
    ensures OwnerInv(s)
  {
    NumbersBelow(MAX_SLOT_NUM, s.available);
  }

  lemma InitIndex(drive: Drive, s: State)
    requires IsInit(s)
    ensures IndexInv(drive, s)
  {
  }

  lemma InitCalm(drive: Drive, s: State)
    requires IsInit(s)
    ensures Calm(drive, s)
  {
    assert forall n: nat :: !Live(s, n);
  }

  lemma StepKeepsCore(drive: Drive, s: State, step: Step)
    requires Core(drive, s) && Enabled(drive, s, step)
    ensures Core(drive, Do(drive, s, step))
  {
    hide Do;
    StepKeepsSlots(drive, s, step);
    StepKeepsOwners(drive, s, step);
    StepKeepsIndex(drive, s, step);
    StepKeepsSizes(drive, s, step);
    OverflowNeedsOversize(drive, s, step);
  }

  lemma OverflowsCount(drive: Drive, s: State, step: Step)
    requires Enabled(drive, s, step)
    ensures s.overflows <= Do(drive, s, step).overflows
  {
    hide Reported;
  }

  lemma StepKeepsSlots(drive: Drive, s: State, step: Step)
    requires SlotsInv(s) && IndexInv(drive, s) && Enabled(drive, s, step)
    ensures SlotsInv(Do(drive, s, step))
  {
    match step
    case SetLength(p) =>
      assert ProcessOk(drive, s, p);
      var (n, idx) := (s.procs[p].listener.n, s.procs[p].listener.idx);
      PutKeepsSlots(s, idx, s.slots[idx].(len := |Value(drive, s.tickets[n].key)|));
    case Clear(t) => PutKeepsSlots(s, s.threads[t].idx, s.slots[s.threads[t].idx].(len := -1));
    case _ =>
  }

  lemma PutKeepsSlots(s: State, idx: nat, slot: Slot)
    requires SlotsInv(s) && idx < |s.slots| && SlotOk(slot)
    ensures SlotsInv(Put(s, idx, slot))
  {
  }

  /** Owners and slot numbers stay. */
  predicate SameOwners(s: State, u: State) {
    && u.available == s.available && u.threads.Keys == s.threads.Keys && |u.threads| == |s.threads|
    && forall t <- s.threads :: u.threads[t].idx == s.threads[t].idx
  }

  lemma StepKeepsOwners(drive: Drive, s: State, step: Step)
    requires OwnerInv(s) && |s.slots| == MAX_SLOT_NUM && Enabled(drive, s, step)
    ensures OwnerInv(Do(drive, s, step))
  {
    match step
    case Begin(t, key, op, idx) => BeginKeepsOwners(s, t, Thread(key, op, idx, Popped));
    case Return(t) => ReturnKeepsOwners(s, t, Do(drive, s, step));
    case _ => OthersOwnTheSame(drive, s, step);
  }

  lemma OthersOwnTheSame(drive: Drive, s: State, step: Step)
    requires OwnerInv(s) && Enabled(drive, s, step) && !step.Begin? && !step.Return?
    ensures OwnerInv(Do(drive, s, step))
  {
    OwnersUnchanged(drive, s, step);
  }

  lemma OwnersUnchanged(drive: Drive, s: State, step: Step)
    requires Enabled(drive, s, step) && !step.Begin? && !step.Return?
    ensures SameOwners(s, Do(drive, s, step))
  {
    hide Handled, Reported, Finish;
  }

  lemma BeginKeepsOwners(s: State, t: nat, th: Thread)
    requires OwnerInv(s) && t !in s.threads && th.idx in s.available
    ensures OwnerInv(s.(available := Without(s.available, th.idx), threads := s.threads[t := th]))
  {
    WithoutSize(s.available, th.idx);
  }

  lemma ReturnKeepsOwners(s: State, t: nat, u: State)
    requires OwnerInv(s) && |s.slots| == MAX_SLOT_NUM && t in s.threads
    requires u.available == Freed(s, s.threads[t].idx) && u.threads == Removed(s.threads, t)
    ensures OwnerInv(u)
  {
    RemovedSize(s.threads, t);
    assert u.available == s.available + {s.threads[t].idx};
  }

  lemma StepKeepsIndex(drive: Drive, s: State, step: Step)
    requires SlotsInv(s) && OwnerInv(s) && IndexInv(drive, s) && Enabled(drive, s, step)
    ensures IndexInv(drive, Do(drive, s, step))
  {
    var u := Do(drive, s, step);
    match step
    case Respond(n) =>
      HandledIsTurn(drive, s, n);
      TurnKeepsIndex(drive, s, u, s.commands[n].proc, n);
    case Report(p) =>
      var n := ReportedIsTurn(drive, s, p);
      TurnKeepsIndex(drive, s, u, p, n);
    case SetLength(p) =>
      LengthIsTurn(drive, s, p);
      TurnKeepsIndex(drive, s, u, p, s.procs[p].listener.n);
    case _ => OthersKeepIndex(drive, s, step);
  }

  lemma OthersKeepIndex(drive: Drive, s: State, step: Step)
    requires OwnerInv(s) && IndexInv(drive, s) && Enabled(drive, s, step)
    requires !step.Respond? && !step.Report? && !step.SetLength?
    ensures IndexInv(drive, Do(drive, s, step))
  {
    TicketsInRange(drive, s, step);
    hide Do;
    var u := Do(drive, s, step);
    forall n | n in u.commands ensures CommandOk(u, n) {
      StepKeepsCommand(drive, s, step, n);
    }
    forall p: nat | p < |u.procs| ensures ProcessOk(drive, u, p) {
      StepKeepsProcess(drive, s, step, p);
    }
  }

  lemma TicketsInRange(drive: Drive, s: State, step: Step)
    requires OwnerInv(s) && IndexInv(drive, s) && Enabled(drive, s, step)
    ensures var u := Do(drive, s, step);
      u.head <= |u.tickets| && forall n :: 0 <= n < |u.tickets| ==> u.tickets[n].idx < MAX_SLOT_NUM
  {
    hide Handled, Reported, Finish;
  }

  /** A turn of the listener of process `q`: of the processes only its listener changes, of the
    * commands only `n`, which is not in hand: it is gone, or left with another stage. */
  ghost predicate ListenerTurn(drive: Drive, s: State, u: State, q: nat, n: nat) {
    && SameRequests(s, u) && q < |s.procs|
    && u.procs == s.procs[q := s.procs[q].(listener := u.procs[q].listener)]
    && (forall m :: m != n ==> (m in u.commands <==> m in s.commands) && (m in s.commands ==> u.commands[m] == s.commands[m]))
    && (n in s.commands ==> !InHand(s, n))
    && (n in u.commands ==> n in s.commands && u.commands[n].proc == s.commands[n].proc && !InHand(u, n))
    && (n in s.commands && (n !in u.commands || u.commands[n].stage.Raised?) ==> s.commands[n].proc == q || s.commands[n].stage.Raised?)
    && (u.procs[q].listener.Writing? ==> Writes(drive, u, q, u.procs[q].listener.n, u.procs[q].listener.idx))
  }

  lemma HandledIsTurn(drive: Drive, s: State, n: nat)
    requires SlotsInv(s) && IndexInv(drive, s) && Enabled(drive, s, Respond(n))
    ensures ListenerTurn(drive, s, Handled(drive, s, n), s.commands[n].proc, n)
  {
    assert s.tickets[n].idx < MAX_SLOT_NUM;
  }

  lemma ReportedIsTurn(drive: Drive, s: State, p: nat) returns (n: nat)
    requires SlotsInv(s) && IndexInv(drive, s) && Enabled(drive, s, Report(p))
    ensures ListenerTurn(drive, s, Reported(s, p), p, n)
  {
    n := if s.procs[p].first.Some? && InTable(s, s.procs[p].first.value) then s.procs[p].first.value else |s.tickets|;
    assert n == |s.tickets| && n in s.commands ==> CommandOk(s, n);
  }

  lemma LengthIsTurn(drive: Drive, s: State, p: nat)
    requires SlotsInv(s) && IndexInv(drive, s) && Enabled(drive, s, SetLength(p))
    ensures ListenerTurn(drive, s, Do(drive, s, SetLength(p)), p, s.procs[p].listener.n)
  {
    assert ProcessOk(drive, s, p);
  }

  lemma TurnKeepsIndex(drive: Drive, s: State, u: State, q: nat, n: nat)
    requires IndexInv(drive, s) && ListenerTurn(drive, s, u, q, n)
    ensures IndexInv(drive, u)
  {
    forall m | m in u.commands ensures CommandOk(u, m) {
      assert CommandOk(s, m);
    }
    forall p: nat | p < |u.procs| ensures ProcessOk(drive, u, p) {
      assert ProcessOk(drive, s, p);
    }
  }

  lemma StepKeepsCommand(drive: Drive, s: State, step: Step, n: nat)
    requires IndexInv(drive, s) && Enabled(drive, s, step) && n in Do(drive, s, step).commands
    requires !step.Respond? && !step.Report? && !step.SetLength?
    ensures CommandOk(Do(drive, s, step), n)
  {
    hide Outstanding, Handled, Reported, Finish;
    assert n in s.commands ==> CommandOk(s, n);
  }

  lemma StepKeepsProcess(drive: Drive, s: State, step: Step, p: nat)
    requires IndexInv(drive, s) && Enabled(drive, s, step) && p < |s.procs|
    requires !step.Respond? && !step.Report? && !step.SetLength?
    ensures ProcessOk(drive, Do(drive, s, step), p)
  {
    hide Outstanding, Handled, Reported, Finish, ThreadDo;
    assert ProcessOk(drive, s, p);
    match step
    case Aim(n) => AimKeepsProcess(drive, s, n, p);
    case Issue(n) => IssueKeepsProcess(drive, s, n, p);
    case _ =>
      if ByThread(step) {
        ThreadKeepsProcesses(drive, s, step);
      }
  }

  lemma ThreadKeepsProcesses(drive: Drive, s: State, step: Step)
    requires Enabled(drive, s, step) && ByThread(step)
    ensures var u := ThreadDo(drive, s, step);
      && u.procs == s.procs && u.commands == s.commands && u.head == s.head && |s.tickets| <= |u.tickets|
      && forall n :: 0 <= n < |s.tickets| ==> u.tickets[n] == s.tickets[n]
  {
  }

  lemma AimKeepsProcess(drive: Drive, s: State, n: nat, p: nat)
    requires IndexInv(drive, s) && Enabled(drive, s, Aim(n)) && p < |s.procs|
    ensures ProcessOk(drive, Do(drive, s, Aim(n)), p)
  {
    assert ProcessOk(drive, s, p);
  }

  lemma IssueKeepsProcess(drive: Drive, s: State, n: nat, p: nat)
    requires IndexInv(drive, s) && Enabled(drive, s, Issue(n)) && p < |s.procs|
    ensures ProcessOk(drive, Do(drive, s, Issue(n)), p)
  {
    hide Outstanding;
    assert ProcessOk(drive, s, p) && CommandOk(s, n);
  }

  lemma StepKeepsSizes(drive: Drive, s: State, step: Step)
    requires SlotsInv(s) && OwnerInv(s) && SizeInv(s) && Enabled(drive, s, step)
    ensures SizeInv(Do(drive, s, step))
  {
    hide Do;
    var u := Do(drive, s, step);
    forall t | t in u.threads ensures PhaseOk(u.threads[t].phase) {
      StepKeepsPhase(drive, s, step, t);
    }
    StepKeepsAnswers(drive, s, step);
  }

  lemma StepKeepsPhase(drive: Drive, s: State, step: Step, t: nat)
    requires SlotsInv(s) && OwnerInv(s) && SizeInv(s) && Enabled(drive, s, step) && t in Do(drive, s, step).threads
    ensures PhaseOk(Do(drive, s, step).threads[t].phase)
  {
    hide Handled, Reported, Finish, Outstanding, AnswerOk;
    assert t in s.threads ==> PhaseOk(s.threads[t].phase);
  }

  lemma StepKeepsAnswers(drive: Drive, s: State, step: Step)
    requires SizeInv(s) && Enabled(drive, s, step)
    ensures forall i :: 0 <= i < |Do(drive, s, step).answers| ==> AnswerOk(Do(drive, s, step).answers[i])
  {
    hide Handled, Reported, Finish, Outstanding;
    if step.Return? {
      assert PhaseOk(s.threads[step.t].phase);
    }
  }

  lemma OverflowNeedsOversize(drive: Drive, s: State, step: Step)
    requires SlotsInv(s) && IndexInv(drive, s) && Enabled(drive, s, step)
    requires s.overflows > 0 ==> !AskedFit(drive, s)
    ensures Do(drive, s, step).overflows > 0 ==> !AskedFit(drive, Do(drive, s, step))
  {
    var u := Do(drive, s, step);
    assert forall n :: 0 <= n < |s.tickets| ==> u.tickets[n] == s.tickets[n];
    if u.overflows > s.overflows {
      assert !Fits(drive, u.tickets[step.n].key);
    }
  }
}
