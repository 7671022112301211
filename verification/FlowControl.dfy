/** Flow control of the kinetic client: a resizable semaphore, the table of pending commands,
  * and the two threads (the caller and the listener) that share them.
  *
  * The steps of the machine are the atomic actions of either thread, in any interleaving.
  */
module FlowControl {
  import opened Options

  /** The user's callback; a client may have none. */
  datatype Delegate = NoDelegate | Delegate(id: nat)

  datatype Who = CallerThread | ListenerThread

  /** Where a thread stands inside the handling of one response. */
  datatype Handling = Idle | Tested(seqno: nat) | Called(seqno: nat) | Deleted

  datatype Stage = Disconnected | TableReplaced | SlotsCleared

  datatype Caller = Free | Acquired | Sending | Failing(at: Handling) | Closing(stage: Stage)

  datatype Listener = NoThread | Running(at: Handling) | Stopped

  /** `issued` and `ran` are histories: the callback captured for each command registered since
    * the last close, and how often each captured callback has been run. */
  datatype State = State(
    depth: int, outstanding: int,
    pending: map<nat, Delegate>, nextSeq: nat, delegate: Delegate, connected: bool,
    caller: Caller, listener: Listener,
    issued: map<nat, Delegate>, ran: multiset<(nat, Delegate)>)
  {
    function At(who: Who): Handling {
      match who
      case CallerThread => if caller.Failing? then caller.at else Idle
      case ListenerThread => if listener.Running? then listener.at else Idle
    }

    function Moved(who: Who, h: Handling): State {
      match who
      case CallerThread => this.(caller := if h == Idle then Free else Failing(h))
      case ListenerThread => this.(listener := Running(h))
    }

    /** A lookup in the pending table raised KeyError in this thread: the caller gets the
      * exception back from the operation, the listener thread dies. */
    function Crashed(who: Who): State {
      match who
      case CallerThread => this.(caller := Free)
      case ListenerThread => this.(listener := Stopped)
    }
  }

  function Init(depth: int): State {
    State(depth, 0, map[], 0, NoDelegate, false, Free, NoThread, map[], multiset{})
  }

  datatype Step =
    | SetDelegate(cb: Delegate)
    | SetDepth(d: int)
    | Connect
    | Acquire                // a non-batch operation takes a slot
    | Register               // and enters the pending table under the next sequence number
    | RegisterBatch          // a batch operation only uses up a sequence number
    | SendDone
    | SendFails              // socket error: the caller reports an error itself, on sequence 0
    | Receive(seqno: nat)    // a response, or an error the listener reports (on sequence 0)
    | CallCallback(who: Who)
    | Delete(who: Who)
    | Release(who: Who)
    | StopListener
    | BeginClose | ReplaceTable | ClearSlots | JoinListener

  predicate Enabled(s: State, step: Step) {
    match step
    case SetDelegate(_) => s.caller == Free
    case SetDepth(_) => true
    case Connect => s.caller == Free && !s.connected
    case Acquire => s.caller == Free && s.connected && s.outstanding < s.depth
    case Register => s.caller == Acquired
    case RegisterBatch => s.caller == Free && s.connected
    case SendDone => s.caller == Sending
    case SendFails => s.caller == Sending
    case Receive(_) => s.listener == Running(Idle)
    case CallCallback(who) => s.At(who).Tested?
    case Delete(who) => s.At(who).Called?
    case Release(who) => s.At(who).Deleted?
    case StopListener => s.listener == Running(Idle)
    case BeginClose => s.caller == Free && s.connected
    case ReplaceTable => s.caller == Closing(Disconnected)
    case ClearSlots => s.caller == Closing(TableReplaced)
    case JoinListener => s.caller == Closing(SlotsCleared) && (s.listener == Stopped || s.listener == Running(Idle))
  }

  function Do(s: State, step: Step): State
    requires Enabled(s, step)
  {
    match step
    case SetDelegate(cb) => s.(delegate := cb)
    case SetDepth(d) => s.(depth := d)
    case Connect => s.(connected := true, nextSeq := 0, listener := Running(Idle))
    case Acquire => s.(outstanding := s.outstanding + 1, caller := Acquired)
    case Register =>
      s.(pending := s.pending[s.nextSeq := s.delegate], issued := s.issued[s.nextSeq := s.delegate],
         nextSeq := s.nextSeq + 1, caller := Sending)
    case RegisterBatch => s.(nextSeq := s.nextSeq + 1, caller := Sending)
    case SendDone => s.(caller := Free)
    case SendFails => Test(s, CallerThread, 0)
    case Receive(q) => Test(s, ListenerThread, q)
    case CallCallback(who) => Call(s, who)
    case Delete(who) => Remove(s, who)
    case Release(who) => GiveBack(s).Moved(who, Idle)
    case StopListener => s.(listener := Stopped)
    case BeginClose => s.(connected := false, caller := Closing(Disconnected))
    case ReplaceTable => s.(pending := map[], issued := map[], ran := multiset{}, caller := Closing(TableReplaced))
    case ClearSlots => s.(outstanding := 0, caller := Closing(SlotsCleared))
    case JoinListener => s.(caller := Free, listener := NoThread)
  }

  /** Entry of a response: only a sequence number in the table is handled further; any other
    * response goes to the current delegate, which touches none of this state. */
  function Test(s: State, who: Who, q: nat): State {
    s.Moved(who, if q in s.pending then Tested(q) else Idle)
  }

  function Call(s: State, who: Who): State
    requires s.At(who).Tested?
  {
    var q := s.At(who).seqno;
    if q !in s.pending then s.Crashed(who)
    else
      var counted := if s.pending[q].NoDelegate? then s.ran else s.ran + multiset{(q, s.pending[q])};
      s.(ran := counted).Moved(who, Called(q))
  }

  function Remove(s: State, who: Who): State
    requires s.At(who).Called?
  {
    var q := s.At(who).seqno;
    if q !in s.pending then s.Crashed(who)
    else s.(pending := Removed(s.pending, q)).Moved(who, Deleted)
  }

  /** Releasing fails quietly when nothing is outstanding. */
  function GiveBack(s: State): State {
    if s.outstanding <= 0 then s else s.(outstanding := s.outstanding - 1)
  }

  // ----- The counting invariant -----

  /** Slots in use: pending commands, a slot taken but not yet registered, and slots of commands
    * already deleted from the table by a thread that has not released them yet. */
  function InUse(s: State): nat {
    |s.pending| + One(s.caller == Acquired) + One(s.At(CallerThread) == Deleted) + One(s.At(ListenerThread) == Deleted)
  }

  predicate CountInv(s: State) {
    && 0 <= s.outstanding
    && (!s.caller.Closing? ==> s.outstanding == InUse(s))
    && (s.caller == Closing(SlotsCleared) ==> s.outstanding == 0)
  }

  predicate TableInv(s: State) {
    && s.pending.Keys <= s.issued.Keys
    && (forall q <- s.pending :: s.pending[q] == s.issued[q])
    && (forall q <- s.issued :: q < s.nextSeq)
    && (s.At(CallerThread).Called? ==> s.At(CallerThread).seqno < s.nextSeq)
    && (s.At(ListenerThread).Called? ==> s.At(ListenerThread).seqno < s.nextSeq)
  }

  predicate PhaseInv(s: State) {
    && (s.caller.Failing? ==> s.caller.at == Tested(0) || s.caller.at == Called(0) || s.caller.at == Deleted)
    && (s.caller.Closing? ==> !s.connected)
    && (s.caller.Closing? && !s.caller.stage.Disconnected? ==> s.issued == map[] && s.ran == multiset{})
    && (!s.connected && !s.caller.Closing? ==>
          s.issued == map[] && s.ran == multiset{} && s.listener == NoThread && s.caller == Free)
    && (s.listener == NoThread ==> !s.connected)
  }

  predicate Inv(s: State) {
    CountInv(s) && TableInv(s) && PhaseInv(s)
  }

  lemma InitInv(depth: int)
    ensures Inv(Init(depth)) && forall q: nat :: Exact(Init(depth), q)
  {
  }

  /** Every step of either thread keeps the invariant: in particular the number of outstanding
    * slots is never negative, and with no close in progress it is exactly the slots in use. */
  lemma StepKeepsInv(s: State, step: Step)
    requires Inv(s) && Enabled(s, step)
    ensures Inv(Do(s, step))
  {
    StepKeepsCount(s, step);
    StepKeepsTable(s, step);
    StepKeepsPhase(s, step);
  }

  lemma StepKeepsCount(s: State, step: Step)
    requires Inv(s) && Enabled(s, step)
    ensures CountInv(Do(s, step))
  {
    match step
    case CallCallback(who) => CallKeepsCount(s, who);
    case Delete(who) => DeleteKeepsCount(s, who);
    case Release(who) => ReleaseKeepsCount(s, who);
    case _ =>
  }

  lemma CallKeepsCount(s: State, who: Who)
    requires Inv(s) && Enabled(s, CallCallback(who))
    ensures CountInv(Call(s, who))
  {
  }

  lemma DeleteKeepsCount(s: State, who: Who)
    requires Inv(s) && Enabled(s, Delete(who))
    ensures CountInv(Remove(s, who))
  {
    var q, t := s.At(who).seqno, Remove(s, who);
    if q in s.pending {
      RemovedSize(s.pending, q);
      assert t.pending == Removed(s.pending, q) && t.outstanding == s.outstanding;
      assert t.caller == Acquired <==> s.caller == Acquired;
      assert t.At(who) == Deleted && t.At(Other(who)) == s.At(Other(who));
    } else {
      assert t.pending == s.pending && t.outstanding == s.outstanding;
    }
  }

  lemma ReleaseKeepsCount(s: State, who: Who)
    requires Inv(s) && Enabled(s, Release(who))
    ensures CountInv(Do(s, Release(who)))
  {
  }

  lemma StepKeepsTable(s: State, step: Step)
    requires Inv(s) && Enabled(s, step)
    ensures TableInv(Do(s, step))
  {
    match step
    case CallCallback(who) => CallKeepsTable(s, who);
    case Delete(who) => DeleteKeepsTable(s, who);
    case _ =>
  }

  lemma CallKeepsTable(s: State, who: Who)
    requires Inv(s) && Enabled(s, CallCallback(who))
    ensures TableInv(Call(s, who))
  {
  }

  lemma DeleteKeepsTable(s: State, who: Who)
    requires Inv(s) && Enabled(s, Delete(who))
    ensures TableInv(Remove(s, who))
  {
  }

  lemma StepKeepsPhase(s: State, step: Step)
    requires Inv(s) && Enabled(s, step)
    ensures PhaseInv(Do(s, step))
  {
    match step
    case CallCallback(who) => HandlingKeepsPhase(s, step, who);
    case Delete(who) => HandlingKeepsPhase(s, step, who);
    case Release(who) => HandlingKeepsPhase(s, step, who);
    case _ =>
  }

  lemma HandlingKeepsPhase(s: State, step: Step, who: Who)
    requires Inv(s) && Enabled(s, step) && (step == CallCallback(who) || step == Delete(who) || step == Release(who))
    ensures PhaseInv(Do(s, step))
  {
  }

  // ----- Callbacks run exactly once -----

  /** Some thread has run the callback of q and not yet deleted q. */
  predicate Calling(s: State, q: nat) {
    s.At(CallerThread) == Called(q) || s.At(ListenerThread) == Called(q)
  }

  function Expected(s: State, q: nat): nat
    requires q in s.issued
  {
    if s.issued[q].NoDelegate? then 0
    else if q in s.pending then One(Calling(s, q))
    else 1
  }

  /** The callback captured for q has run once if q has left the table and not at all if q still
    * waits; no other callback has run for q. */
  ghost predicate Exact(s: State, q: nat) {
    && (q in s.issued ==> s.ran[(q, s.issued[q])] == Expected(s, q))
    && (forall cb :: (q, cb) in s.ran ==> q in s.issued && cb == s.issued[q])
  }

  function Other(who: Who): Who { if who == CallerThread then ListenerThread else CallerThread }

  /** The one harmful step: running the callback of a command that the other thread has already
    * called back and not yet deleted. */
  predicate DoubleCall(s: State, step: Step, q: nat) {
    && step.CallCallback?
    && s.At(step.who) == Tested(q)
    && s.At(Other(step.who)) == Called(q)
    && q in s.pending
    && s.pending[q].Delegate?
  }

  /** A step breaks "exactly once" for q if and only if it is a double call of q. */
  lemma StepKeepsExact(s: State, step: Step, q: nat)
    requires Inv(s) && Exact(s, q) && Enabled(s, step)
    ensures Exact(Do(s, step), q) <==> !DoubleCall(s, step, q)
  {
    match step
    case CallCallback(who) => CallKeepsExact(s, who, q);
    case Delete(who) => DeleteKeepsExact(s, who, q);
    case Register =>
    case _ => QuietKeepsExact(s, step, q);
  }

  lemma QuietKeepsExact(s: State, step: Step, q: nat)
    requires Inv(s) && Exact(s, q) && Enabled(s, step)
    requires !step.CallCallback? && !step.Delete? && !step.Register?
    ensures Exact(Do(s, step), q)
  {
    if !step.ReplaceTable? {
      QuietLeaves(s, step, q);
      hide Do, Inv, Calling;
    }
  }

  lemma QuietLeaves(s: State, step: Step, q: nat)
    requires Inv(s) && Enabled(s, step)
    requires !step.CallCallback? && !step.Delete? && !step.Register? && !step.ReplaceTable?
    ensures var t := Do(s, step);
      t.pending == s.pending && t.issued == s.issued && t.ran == s.ran && Calling(t, q) == Calling(s, q)
  {
  }

  lemma CallKeepsExact(s: State, who: Who, q: nat)
    requires Inv(s) && Exact(s, q) && Enabled(s, CallCallback(who))
    ensures Exact(Call(s, who), q) <==> !DoubleCall(s, CallCallback(who), q)
  {
    if q in s.pending && s.At(who) == Tested(q) {
      CallOwnExact(s, who, q);
    } else {
      CallOtherExact(s, who, q);
    }
  }

  lemma CallOwnExact(s: State, who: Who, q: nat)
    requires Inv(s) && Exact(s, q) && s.At(who) == Tested(q) && q in s.pending
    ensures Exact(Call(s, who), q) <==> s.At(Other(who)) != Called(q) || s.pending[q].NoDelegate?
  {
    var t := Call(s, who);
    assert Calling(t, q) && (Calling(s, q) <==> s.At(Other(who)) == Called(q));
    assert t.ran == if s.pending[q].NoDelegate? then s.ran else s.ran + multiset{(q, s.pending[q])};
  }

  lemma CallOtherExact(s: State, who: Who, q: nat)
    requires Inv(s) && Exact(s, q) && s.At(who).Tested? && (s.At(who).seqno != q || q !in s.pending)
    ensures Exact(Call(s, who), q)
  {
    var t, p := Call(s, who), s.At(who).seqno;
    assert t.pending == s.pending && t.issued == s.issued;
    if p in s.pending {
      assert Calling(t, q) == Calling(s, q);
      assert forall cb :: t.ran[(q, cb)] == s.ran[(q, cb)];
    } else {
      assert t.ran == s.ran && (q in s.pending ==> Calling(t, q) == Calling(s, q));
    }
  }

  lemma DeleteKeepsExact(s: State, who: Who, q: nat)
    requires Inv(s) && Exact(s, q) && Enabled(s, Delete(who))
    ensures Exact(Remove(s, who), q)
  {
    var t, p := Remove(s, who), s.At(who).seqno;
    assert p != q && q in s.pending ==> Calling(t, q) == Calling(s, q);
  }

  /** Only sequence number 0 can be called twice: the caller only ever reports on 0. */
  lemma DoubleCallOnlyOnZero(s: State, step: Step, q: nat)
    requires Inv(s) && DoubleCall(s, step, q)
    ensures q == 0 && s.caller.Failing?
  {
  }

  // ----- Whole runs -----

  /** The state a run ends in, or None if some step is not enabled. */
  function Run(s: State, steps: seq<Step>): Option<State>
    decreases |steps|
  {
    if steps == [] then Some(s)
    else if Enabled(s, steps[0]) then Run(Do(s, steps[0]), steps[1..])
    else None
  }

  lemma {:induction false} RunKeepsInv(s: State, steps: seq<Step>)
    requires Inv(s) && Run(s, steps).Some?
    ensures Inv(Run(s, steps).value)
    decreases |steps|
  {
    if steps != [] {
      StepKeepsInv(s, steps[0]);
      RunKeepsInv(Do(s, steps[0]), steps[1..]);
    }
  }

  /** The callback captured for q has run more than once. */
  predicate Overcalled(s: State, q: nat) {
    q in s.issued && s.ran[(q, s.issued[q])] > 1
  }

  /** Somewhere in the run there is a double call of q, and no close has replaced the table since. */
  predicate DoubledSinceClose(s: State, steps: seq<Step>, q: nat)
    decreases |steps|
  {
    steps != [] && Enabled(s, steps[0]) &&
      ((DoubleCall(s, steps[0], q) && ReplaceTable !in steps[1..]) || DoubledSinceClose(Do(s, steps[0]), steps[1..], q))
  }

  /** What has run twice has run twice, until a close forgets the command. */
  lemma StepKeepsOvercalled(s: State, step: Step, q: nat)
    requires Inv(s) && Overcalled(s, q) && Enabled(s, step)
    ensures if step.ReplaceTable? then Exact(Do(s, step), q) else Overcalled(Do(s, step), q)
  {
    assert q < s.nextSeq;
  }

  /** In every run: q has been called back exactly as it should be if and only if there was no double
    * call of q since the last close. */
  lemma {:induction false} RunExactFrom(s: State, steps: seq<Step>, q: nat)
    requires Inv(s) && Run(s, steps).Some? && (Exact(s, q) || Overcalled(s, q))
    ensures Exact(Run(s, steps).value, q) <==>
      !(DoubledSinceClose(s, steps, q) || (Overcalled(s, q) && ReplaceTable !in steps))
    decreases |steps|
  {
    if steps != [] {
      var step, t := steps[0], Do(s, steps[0]);
      assert steps == [step] + steps[1..];
      StepKeepsInv(s, step);
      if Overcalled(s, q) {
        StepKeepsOvercalled(s, step, q);
      } else {
        StepKeepsExact(s, step, q);
      }
      RunExactFrom(t, steps[1..], q);
    }
  }

  lemma RunExactIff(s: State, steps: seq<Step>, q: nat)
    requires Inv(s) && Exact(s, q) && Run(s, steps).Some?
    ensures Exact(Run(s, steps).value, q) <==> !DoubledSinceClose(s, steps, q)
    ensures q != 0 ==> !DoubledSinceClose(s, steps, q)
  {
    RunExactFrom(s, steps, q);
    if q != 0 {
      OnlyZeroDoubles(s, steps, q);
    }
  }

  lemma {:induction false} OnlyZeroDoubles(s: State, steps: seq<Step>, q: nat)
    requires Inv(s) && Run(s, steps).Some? && q != 0
    ensures !DoubledSinceClose(s, steps, q)
    decreases |steps|
  {
    if steps != [] {
      StepKeepsInv(s, steps[0]);
      OnlyZeroDoubles(Do(s, steps[0]), steps[1..], q);
    }
  }

  /** What a caller can watch: it never fails to send while command 0 waits for a response. Then
    * there is no double call of 0 either. */
  predicate NoFailureOnZero(s: State, steps: seq<Step>)
    decreases |steps|
  {
    steps != [] && Enabled(s, steps[0]) ==>
      !(steps[0] == SendFails && 0 in s.pending) && NoFailureOnZero(Do(s, steps[0]), steps[1..])
  }

  lemma {:induction false} NoFailureNoDouble(s: State, steps: seq<Step>)
    requires Inv(s) && Run(s, steps).Some? && NoFailureOnZero(s, steps) && !s.caller.Failing?
    ensures !DoubledSinceClose(s, steps, 0)
    decreases |steps|
  {
    if steps != [] {
      StepKeepsInv(s, steps[0]);
      NoFailureNoDouble(Do(s, steps[0]), steps[1..]);
    }
  }

  /** What `wait_q(k)` tells its caller when it returns True: at most k of the commands issued
    * since the last close still wait; each other command has had the callback captured at its
    * issue run exactly once and no other, whatever the delegate is now, if and only if it was not
    * called twice since that close, which only command 0 can be. */
  lemma WaitQSound(depth: int, steps: seq<Step>, k: int)
    requires Run(Init(depth), steps).Some?
    requires Run(Init(depth), steps).value.caller == Free
    requires Run(Init(depth), steps).value.outstanding <= k
    ensures var s := Run(Init(depth), steps).value;
      && |s.pending| <= k
      && forall q: nat | q in s.issued && q !in s.pending ::
           && (q != 0 ==> !DoubledSinceClose(Init(depth), steps, q))
           && ((&& s.ran[(q, s.issued[q])] == (if s.issued[q].Delegate? then 1 else 0)
                && forall cb | cb != s.issued[q] :: (q, cb) !in s.ran) <==> !DoubledSinceClose(Init(depth), steps, q))
  {
    var s := Run(Init(depth), steps).value;
    InitInv(depth);
    RunKeepsInv(Init(depth), steps);
    forall q: nat | q in s.issued && q !in s.pending
      ensures Exact(s, q) <==> !DoubledSinceClose(Init(depth), steps, q)
      ensures q != 0 ==> !DoubledSinceClose(Init(depth), steps, q)
    {
      RunExactIff(Init(depth), steps, q);
    }
  }

  /** Drained: `wait_q(0)` returning True means that nothing is pending, and the whole history of
    * calls is one call of the captured callback for each command issued since the last close, if
    * and only if command 0 was not called twice since. */
  lemma Drained(depth: int, steps: seq<Step>)
    requires Run(Init(depth), steps).Some?
    requires Run(Init(depth), steps).value.caller == Free
    requires Run(Init(depth), steps).value.outstanding <= 0
    ensures var s := Run(Init(depth), steps).value;
      && s.pending == map[]
      && (s.ran == multiset(CapturedCalls(s)) <==> !DoubledSinceClose(Init(depth), steps, 0))
  {
    var s := Run(Init(depth), steps).value;
    InitInv(depth);
    RunKeepsInv(Init(depth), steps);
    RunExactIff(Init(depth), steps, 0);
    if Exact(s, 0) {
      forall call: (nat, Delegate)
        ensures s.ran[call] == multiset(CapturedCalls(s))[call]
      {
        RunExactIff(Init(depth), steps, call.0);
      }
    }
  }

  function CapturedCalls(s: State): set<(nat, Delegate)> {
    set q | q in s.issued && s.issued[q].Delegate? :: (q, s.issued[q])
  }

  /** The condition is needed: in any state where the caller is sending while command 0 is
    * pending, a failed send and a response to 0 can interleave so that 0 is called back twice. */
  function RaceSteps(): seq<Step> {
    [SendFails, Receive(0), CallCallback(ListenerThread), CallCallback(CallerThread)]
  }

  lemma FailureOnZeroCanCallTwice(s: State)
    requires Inv(s) && Exact(s, 0)
    requires s.caller == Sending && s.listener == Running(Idle) && 0 in s.pending && s.pending[0].Delegate?
    ensures Run(s, RaceSteps()).Some?
    ensures Run(s, RaceSteps()).value.ran[(0, s.issued[0])] == 2
    ensures !Exact(Run(s, RaceSteps()).value, 0)
  {
    var call := (0, s.pending[0]);
    var s1 := s.(caller := Failing(Tested(0)));
    var s2 := s1.(listener := Running(Tested(0)));
    var s3 := s2.(listener := Running(Called(0)), ran := s.ran + multiset{call});
    var s4 := s3.(caller := Failing(Called(0)), ran := s.ran + multiset{call} + multiset{call});
    assert Leads(s, SendFails, s1);
    assert Leads(s1, Receive(0), s2);
    assert Leads(s2, CallCallback(ListenerThread), s3);
    assert Leads(s3, CallCallback(CallerThread), s4);
    assert s.ran[call] == Expected(s, 0) == 0;
    PathIsRun([s, s1, s2, s3, s4], RaceSteps());
  }

  /** There the caller can also take command 0 away from under the listener, which dies of it: no
    * response is handled any more until the client is closed. */
  lemma FailureOnZeroCanKillListener(s: State)
    requires Inv(s) && s.caller == Sending && s.listener == Running(Idle) && 0 in s.pending
    ensures var t := Run(s, [SendFails, Receive(0), CallCallback(CallerThread), Delete(CallerThread), CallCallback(ListenerThread)]);
      t.Some? && t.value.listener == Stopped && t.value.pending == Removed(s.pending, 0) && t.value.connected == s.connected
  {
    var counted := if s.pending[0].NoDelegate? then s.ran else s.ran + multiset{(0, s.pending[0])};
    var s1 := s.(caller := Failing(Tested(0)));
    var s2 := s1.(listener := Running(Tested(0)));
    var s3 := s2.(caller := Failing(Called(0)), ran := counted);
    var s4 := s3.(caller := Failing(Deleted), pending := Removed(s.pending, 0));
    var s5 := s4.(listener := Stopped);
    BothTest(s, s1, s2);
    TakenAway(s2, s3, s4, s5);
    hide Leads, Inv;
    PathIsRun([s, s1, s2, s3, s4, s5], [SendFails, Receive(0), CallCallback(CallerThread), Delete(CallerThread), CallCallback(ListenerThread)]);
  }

  lemma BothTest(s: State, s1: State, s2: State)
    requires s.caller == Sending && s.listener == Running(Idle) && 0 in s.pending
    requires s1 == s.(caller := Failing(Tested(0))) && s2 == s1.(listener := Running(Tested(0)))
    ensures Leads(s, SendFails, s1) && Leads(s1, Receive(0), s2)
  {
  }

  lemma TakenAway(s2: State, s3: State, s4: State, s5: State)
    requires s2.caller == Failing(Tested(0)) && s2.listener == Running(Tested(0)) && 0 in s2.pending
    requires s3 == s2.(caller := Failing(Called(0)),
      ran := if s2.pending[0].NoDelegate? then s2.ran else s2.ran + multiset{(0, s2.pending[0])})
    requires s4 == s3.(caller := Failing(Deleted), pending := Removed(s2.pending, 0)) && s5 == s4.(listener := Stopped)
    ensures Leads(s2, CallCallback(CallerThread), s3) && Leads(s3, Delete(CallerThread), s4)
    ensures Leads(s4, CallCallback(ListenerThread), s5)
  {
  }

  /** A listener that has died, or left its loop, handles nothing more before the next close. */
  lemma {:induction false} DeadListenerStays(s: State, steps: seq<Step>)
    requires s.listener == Stopped || (steps != [] && steps[0] == StopListener)
    requires s.connected && Run(s, steps).Some? && BeginClose !in steps && !s.caller.Closing?
    ensures var t := Run(s, steps).value;
      t.listener == Stopped && t.connected && !t.caller.Closing? && forall q: nat :: !Enabled(t, Receive(q))
    decreases |steps|
  {
    if steps != [] {
      assert steps[0] != BeginClose;
      DeadListenerStays(Do(s, steps[0]), steps[1..]);
    }
  }

  /** Such a state is reached by two commands in a row on a fresh connection. */
  lemma FailureOnZeroReachable(cb: nat)
    ensures var s := Run(Init(2), [Connect, SetDelegate(Delegate(cb)), Acquire, Register, SendDone, Acquire, Register]);
      && s.Some?
      && s.value.caller == Sending && s.value.listener == Running(Idle)
      && 0 in s.value.pending && s.value.pending[0] == Delegate(cb)
  {
    var d := Delegate(cb);
    var s1 := Init(2).(connected := true, listener := Running(Idle));
    var s2 := s1.(delegate := d);
    var s3 := s2.(outstanding := 1, caller := Acquired);
    var s4 := s3.(pending := map[0 := d], issued := map[0 := d], nextSeq := 1, caller := Sending);
    var s5 := s4.(caller := Free);
    var s6 := s5.(outstanding := 2, caller := Acquired);
    var s7 := s6.(pending := map[0 := d, 1 := d], issued := map[0 := d, 1 := d], nextSeq := 2, caller := Sending);
    assert Leads(Init(2), Connect, s1);
    assert Leads(s1, SetDelegate(d), s2);
    assert Leads(s2, Acquire, s3);
    assert Leads(s3, Register, s4);
    assert Leads(s4, SendDone, s5);
    assert Leads(s5, Acquire, s6);
    assert Leads(s6, Register, s7);
    PathIsRun([Init(2), s1, s2, s3, s4, s5, s6, s7], [Connect, SetDelegate(d), Acquire, Register, SendDone, Acquire, Register]);
  }

  /** A run written out with the states it passes through. */
  ghost predicate Path(states: seq<State>, steps: seq<Step>) {
    && |states| == |steps| + 1
    && forall i :: 0 <= i < |steps| ==> Leads(states[i], steps[i], states[i + 1])
  }

  ghost predicate Leads(s: State, step: Step, t: State) {
    Enabled(s, step) && t == Do(s, step)
  }

  lemma {:induction false} PathIsRun(states: seq<State>, steps: seq<Step>)
    requires Path(states, steps)
    ensures Run(states[0], steps) == Some(states[|steps|])
    decreases |steps|
  {
    if steps != [] {
      assert Leads(states[0], steps[0], states[0 + 1]);
      PathIsRun(states[1..], steps[1..]);
    }
  }

  /** A close waits for the listener, and when it is through everything is as in a new client, except
    * for the settings and the last sequence number. */
  lemma CloseResets(s: State)
    requires Inv(s) && Enabled(s, JoinListener)
    ensures s.listener == Stopped || s.listener == Running(Idle)
    ensures Do(s, JoinListener) == Init(s.depth).(delegate := s.delegate, nextSeq := s.nextSeq)
  {
  }

  // ----- What a run amounts to, read off its steps -----

  /** The depth a run leaves: the argument of its last SetDepth, the initial depth if there is none. */
  ghost predicate DepthIs(d0: int, steps: seq<Step>, d: int) {
    || (d == d0 && forall j :: 0 <= j < |steps| ==> !steps[j].SetDepth?)
    || exists i :: 0 <= i < |steps| && steps[i] == SetDepth(d) && forall j :: i < j < |steps| ==> !steps[j].SetDepth?
  }

  /** The delegate it leaves, likewise. */
  ghost predicate DelegateIs(steps: seq<Step>, cb: Delegate) {
    || (cb == NoDelegate && forall j :: 0 <= j < |steps| ==> !steps[j].SetDelegate?)
    || exists i :: 0 <= i < |steps| && steps[i] == SetDelegate(cb) && forall j :: i < j < |steps| ==> !steps[j].SetDelegate?
  }

  /** The commands that have used up a sequence number since the last connect. */
  function Numbered(steps: seq<Step>): set<nat> {
    set i: nat | i < |steps| && (steps[i].Register? || steps[i].RegisterBatch?) && Connect !in steps[i..]
  }

  /** Step i registers a command, and no close has replaced the table since. */
  predicate Issues(steps: seq<Step>, i: nat) {
    i < |steps| && steps[i].Register? && ReplaceTable !in steps[i..]
  }

  /** The commands issued since the last close, each under the number of commands before it on its
    * connection, with the delegate of that moment. */
  ghost predicate IssuedAre(steps: seq<Step>, issued: map<nat, Delegate>) {
    && (forall i: nat | Issues(steps, i) ::
          |Numbered(steps[..i])| in issued && DelegateIs(steps[..i], issued[|Numbered(steps[..i])|]))
    && (forall q <- issued :: exists i: nat :: Issues(steps, i) && |Numbered(steps[..i])| == q)
  }

  lemma {:induction false} RunMore(s: State, steps: seq<Step>, step: Step)
    ensures Run(s, steps + [step]) ==
      if Run(s, steps).Some? && Enabled(Run(s, steps).value, step) then Some(Do(Run(s, steps).value, step)) else None
    decreases |steps|
  {
    if steps == [] {
      assert [step][1..] == [];
    } else {
      assert (steps + [step])[1..] == steps[1..] + [step];
      if Enabled(s, steps[0]) {
        RunMore(Do(s, steps[0]), steps[1..], step);
      }
    }
  }

  lemma NumberedMore(steps: seq<Step>, step: Step)
    ensures |Numbered(steps + [step])| ==
      if step.Connect? then 0 else |Numbered(steps)| + One(step.Register? || step.RegisterBatch?)
  {
    var (n, more) := (|steps|, steps + [step]);
    assert more[n..] == [step];
    forall i: nat | i < n ensures i in Numbered(more) <==> i in Numbered(steps) && !step.Connect? {
      assert more[i..] == steps[i..] + [step];
    }
    assert n in Numbered(more) <==> step.Register? || step.RegisterBatch?;
    assert forall i <- Numbered(more) :: i <= n;
    assert forall i <- Numbered(steps) :: i < n;
    hide Numbered;
    if step.Connect? {
      assert Numbered(more) == {};
    } else {
      OneMoreSize(Numbered(steps), Numbered(more), n, step.Register? || step.RegisterBatch?);
    }
  }

  lemma SettingsMore(d0: int, steps: seq<Step>, d: int, cb: Delegate, step: Step)
    requires DepthIs(d0, steps, d) && DelegateIs(steps, cb)
    ensures DepthIs(d0, steps + [step], if step.SetDepth? then step.d else d)
    ensures DelegateIs(steps + [step], if step.SetDelegate? then step.cb else cb)
  {
    var (n, more) := (|steps|, steps + [step]);
    assert more[n] == step && forall i :: 0 <= i < n ==> more[i] == steps[i];
    if !step.SetDepth? && !(forall j :: 0 <= j < n ==> !steps[j].SetDepth?) {
      var i :| 0 <= i < n && steps[i] == SetDepth(d) && forall j :: i < j < n ==> !steps[j].SetDepth?;
      assert more[i] == SetDepth(d);
    }
    if !step.SetDelegate? && !(forall j :: 0 <= j < n ==> !steps[j].SetDelegate?) {
      var i :| 0 <= i < n && steps[i] == SetDelegate(cb) && forall j :: i < j < n ==> !steps[j].SetDelegate?;
      assert more[i] == SetDelegate(cb);
    }
  }

  lemma IssuesMore(steps: seq<Step>, step: Step, i: nat)
    ensures Issues(steps + [step], i) <==>
      if i == |steps| then step.Register? else Issues(steps, i) && !step.ReplaceTable?
    ensures i <= |steps| ==> (steps + [step])[..i] == steps[..i]
  {
    var more := steps + [step];
    if i < |steps| {
      assert more[i..] == steps[i..] + [step];
    } else if i == |steps| {
      assert more[i..] == [step];
    }
  }

  /** What one step does to the settings and the history of issued commands. */
  lemma LedgerStep(s: State, step: Step)
    requires Enabled(s, step)
    ensures var t := Do(s, step);
      && t.depth == (if step.SetDepth? then step.d else s.depth)
      && t.delegate == (if step.SetDelegate? then step.cb else s.delegate)
      && t.nextSeq == (if step.Connect? then 0 else s.nextSeq + One(step.Register? || step.RegisterBatch?))
      && t.issued == (if step.Register? then s.issued[s.nextSeq := s.delegate] else if step.ReplaceTable? then map[] else s.issued)
  {
    match step
    case CallCallback(who) => CallKeepsLedger(s, who);
    case Delete(who) => RemoveKeepsLedger(s, who);
    case _ =>
  }

  lemma CallKeepsLedger(s: State, who: Who)
    requires s.At(who).Tested?
    ensures var t := Call(s, who);
      t.depth == s.depth && t.delegate == s.delegate && t.nextSeq == s.nextSeq && t.issued == s.issued && t.outstanding == s.outstanding
  {
  }

  lemma RemoveKeepsLedger(s: State, who: Who)
    requires s.At(who).Called?
    ensures var t := Remove(s, who);
      t.depth == s.depth && t.delegate == s.delegate && t.nextSeq == s.nextSeq && t.issued == s.issued && t.outstanding == s.outstanding
  {
  }

  lemma SlotsAfter(s: State, step: Step)
    requires Enabled(s, step)
    ensures var t := Do(s, step); t.outstanding <= s.outstanding || t.outstanding <= s.depth || t.outstanding == 0
  {
    match step
    case CallCallback(who) => CallKeepsLedger(s, who);
    case Delete(who) => RemoveKeepsLedger(s, who);
    case _ =>
  }

  lemma IssuedMore(steps: seq<Step>, issued: map<nat, Delegate>, nextSeq: nat, delegate: Delegate, step: Step)
    requires IssuedAre(steps, issued) && (forall q <- issued :: q < nextSeq)
    requires nextSeq == |Numbered(steps)| && DelegateIs(steps, delegate)
    ensures IssuedAre(steps + [step],
      if step.Register? then issued[nextSeq := delegate] else if step.ReplaceTable? then map[] else issued)
  {
    var (n, more) := (|steps|, steps + [step]);
    var issued' := if step.Register? then issued[nextSeq := delegate] else if step.ReplaceTable? then map[] else issued;
    assert steps[..n] == steps;
    hide Numbered, DelegateIs, Issues;
    forall i: nat | Issues(more, i)
      ensures |Numbered(more[..i])| in issued' && DelegateIs(more[..i], issued'[|Numbered(more[..i])|])
    {
      IssuesMore(steps, step, i);
    }
    forall q | q in issued'
      ensures exists i: nat :: Issues(more, i) && |Numbered(more[..i])| == q
    {
      if step.Register? && q == nextSeq {
        IssuesMore(steps, step, n);
        assert Issues(more, n);
      } else {
        var i: nat :| Issues(steps, i) && |Numbered(steps[..i])| == q;
        IssuesMore(steps, step, i);
        assert Issues(more, i);
      }
    }
  }

  /** Every run leaves the depth and the delegate that were set last, numbers commands one after the
    * other from each connect on, and has issued exactly the commands registered since the last
    * close, each with the delegate that was set last before it. */
  lemma {:induction false} RunLedger(d0: int, steps: seq<Step>)
    requires Run(Init(d0), steps).Some?
    ensures var s := Run(Init(d0), steps).value;
      && DepthIs(d0, steps, s.depth) && DelegateIs(steps, s.delegate)
      && s.nextSeq == |Numbered(steps)| && IssuedAre(steps, s.issued)
    decreases |steps|
  {
    if steps == [] {
      assert Numbered(steps) == {};
    } else {
      var n := |steps| - 1;
      var (front, step) := (steps[..n], steps[n]);
      assert steps == front + [step];
      RunMore(Init(d0), front, step);
      RunLedger(d0, front);
      InitInv(d0);
      RunKeepsInv(Init(d0), front);
      var s := Run(Init(d0), front).value;
      assert forall q <- s.issued :: q < s.nextSeq;
      hide Run, Do, Inv, Enabled, DepthIs, DelegateIs, Numbered, IssuedAre;
      LedgerStep(s, step);
      NumberedMore(front, step);
      SettingsMore(d0, front, s.depth, s.delegate, step);
      IssuedMore(front, s.issued, s.nextSeq, s.delegate, step);
    }
  }

  lemma SameDepth(d0: int, steps: seq<Step>, d: int, e: int)
    requires DepthIs(d0, steps, d) && DepthIs(d0, steps, e)
    ensures d == e
  {
  }

  /** When the next command finds a slot: exactly if the commands that hold one, those pending and
    * one the listener has deleted and not yet released, are fewer than the depth set last; so another
    * depth can be set at any time and counts at once. */
  lemma AcquireIff(d0: int, steps: seq<Step>, d: int, e: int)
    requires Run(Init(d0), steps).Some? && DepthIs(d0, steps, d)
    requires Run(Init(d0), steps).value.caller == Free && Run(Init(d0), steps).value.connected
    ensures var s := Run(Init(d0), steps).value;
      Run(Init(d0), steps + [Acquire]).Some? <==> |s.pending| + One(s.listener == Running(Deleted)) < d
    ensures var s := Run(Init(d0), steps).value;
      Run(Init(d0), steps + [SetDepth(e)] + [Acquire]).Some? <==> |s.pending| + One(s.listener == Running(Deleted)) < e
  {
    RunLedger(d0, steps);
    SameDepth(d0, steps, d, Run(Init(d0), steps).value.depth);
    InitInv(d0);
    RunKeepsInv(Init(d0), steps);
    RunMore(Init(d0), steps, Acquire);
    RunMore(Init(d0), steps, SetDepth(e));
    RunMore(Init(d0), steps + [SetDepth(e)], Acquire);
  }

  /** No more slots are ever in use than the greatest depth that was set. */
  lemma {:induction false} NeverAboveDepth(d0: int, steps: seq<Step>, top: int)
    requires Run(Init(d0), steps).Some? && 0 <= top && d0 <= top
    requires forall i :: 0 <= i < |steps| && steps[i].SetDepth? ==> steps[i].d <= top
    ensures Run(Init(d0), steps).value.outstanding <= top
    decreases |steps|
  {
    if steps != [] {
      var n := |steps| - 1;
      assert steps == steps[..n] + [steps[n]];
      RunMore(Init(d0), steps[..n], steps[n]);
      NeverAboveDepth(d0, steps[..n], top);
      RunLedger(d0, steps[..n]);
      var s := Run(Init(d0), steps[..n]).value;
      assert s.depth <= top;
      hide Run, Do, Enabled, DepthIs, DelegateIs, Numbered, IssuedAre;
      SlotsAfter(s, steps[n]);
    }
  }
}
