/** The kinetic client and its semaphore as classes. Each method of the client is proved to be one
  * uninterrupted run of the machine of FlowControl.
  */
module KineticClient {
  import opened Options
  import opened FlowControl

  class Semaphore {
    var depth: int
    var outstanding: int

    constructor (value: int)
      requires 0 < value
      ensures depth == value && outstanding == 0
    {
      depth, outstanding := value, 0;
    }

    method Clear()
      modifies this`outstanding
      ensures outstanding == 0
    {
      outstanding := 0;
    }

    method Release() returns (ok: bool)
      modifies this`outstanding
      ensures ok == (0 < old(outstanding))
      ensures outstanding == old(outstanding) - One(ok)
    {
      if outstanding <= 0 {
        return false;
      }
      outstanding := outstanding - 1;
      return true;
    }

    /** The attempt a non-blocking acquire makes; a blocking one repeats it when notified. */
    method Acquire() returns (ok: bool)
      modifies this`outstanding
      ensures ok == (old(outstanding) < depth)
      ensures outstanding == old(outstanding) + One(ok)
      ensures ok ==> outstanding <= depth
    {
      if outstanding >= depth {
        return false;
      }
      outstanding := outstanding + 1;
      return true;
    }
  }

  datatype Outcome = NotConnected | Blocked | Sent | SendError

  /** A response handled by one thread without interruption. */
  function Response(who: Who, first: Step, s: State, q: nat): seq<Step> {
    [first] + if q in s.pending then [CallCallback(who), Delete(who), Release(who)] else []
  }

  /** The steps of one operation, by how it turns out. */
  function OperationSteps(s: State, batch: bool, outcome: Outcome): seq<Step> {
    match outcome
    case NotConnected => []
    case Blocked => []
    case Sent => Header(batch) + [SendDone]
    case SendError => Header(batch) + Response(CallerThread, SendFails, Registered(s, batch), 0)
  }

  function Header(batch: bool): seq<Step> { if batch then [RegisterBatch] else [Acquire, Register] }

  function Registered(s: State, batch: bool): State {
    if batch then s else s.(pending := s.pending[s.nextSeq := s.delegate])
  }

  class Client {
    const semaphore: Semaphore
    var pending: map<nat, Delegate>
    var sequence: nat
    var delegate: Delegate
    var connected: bool
    ghost var issued: map<nat, Delegate>
    ghost var ran: multiset<(nat, Delegate)>

    /** The client between two method calls: neither thread is inside one. */
    ghost function View(): State
      reads this, semaphore
    {
      State(semaphore.depth, semaphore.outstanding, pending, sequence, delegate, connected,
            Free, if connected then Running(Idle) else NoThread, issued, ran)
    }

    constructor (queueDepth: int)
      requires 0 < queueDepth
      ensures View() == Init(queueDepth) && fresh(semaphore)
    {
      semaphore := new Semaphore(queueDepth);
      pending, sequence, delegate, connected := map[], 0, NoDelegate, false;
      issued, ran := map[], multiset{};
    }

    method SetQueueDepth(depth: int)
      modifies semaphore
      ensures semaphore.depth == depth && View() == old(View()).(depth := depth)
      ensures Run(old(View()), [SetDepth(depth)]) == Some(View())
    {
      ghost var before := View();
      semaphore.depth := depth;
      PathIsRun([before, View()], [SetDepth(depth)]);
    }

    method SetCallbackDelegate(cb: Delegate)
      modifies this
      ensures delegate == cb && View() == old(View()).(delegate := cb)
      ensures Run(old(View()), [SetDelegate(cb)]) == Some(View())
    {
      ghost var before := View();
      delegate := cb;
      PathIsRun([before, View()], [SetDelegate(cb)]);
    }

    method Open()
      modifies this
      ensures connected && (old(connected) ==> View() == old(View()))
      ensures !old(connected) ==> View() == old(View()).(connected := true, nextSeq := 0, listener := Running(Idle))
      ensures Run(old(View()), if old(connected) then [] else [Connect]) == Some(View())
    {
      if connected {
        return;
      }
      ghost var before := View();
      sequence := 0;
      connected := true;
      PathIsRun([before, View()], [Connect]);
    }

    /** `_on_response` up to the slot release, for the thread that handles it. */
    method OnResponse(q: nat)
      modifies this`pending, this`ran, semaphore`outstanding
      ensures q !in old(pending) ==> View() == old(View())
      ensures q in old(pending) ==>
        && pending == Removed(old(pending), q)
        && ran == old(ran) + (if old(pending)[q].NoDelegate? then multiset{} else multiset{(q, old(pending)[q])})
        && semaphore.outstanding == old(semaphore.outstanding) - One(0 < old(semaphore.outstanding))
    {
      if q in pending {
        if pending[q].Delegate? {
          ran := ran + multiset{(q, pending[q])};
        }
        pending := Removed(pending, q);
        var _ := semaphore.Release();
      }
    }

    /** A response read by the listener. */
    method Listen(q: nat)
      requires connected
      modifies this`pending, this`ran, semaphore`outstanding
      ensures Answered(old(View()), q, View())
      ensures Run(old(View()), Response(ListenerThread, Receive(q), old(View()), q)) == Some(View())
    {
      ghost var before := View();
      OnResponse(q);
      ResponseIsRun(before, q, View());
    }

    /** The part of an operation that makes the header: it takes a slot, if there is one, and enters
      * the callback into the table. */
    method BuildHeader(batch: bool) returns (ok: bool)
      requires connected
      modifies this`pending, this`issued, this`sequence, semaphore`outstanding
      ensures ok == (batch || old(semaphore.outstanding) < semaphore.depth)
      ensures ok ==> HeaderBuilt(old(View()), batch, View().(caller := Sending))
      ensures !ok ==> View() == old(View())
    {
      if !batch {
        var acquired := semaphore.Acquire();
        if !acquired {
          return false;
        }
        pending := pending[sequence := delegate];
        issued := issued[sequence := delegate];
      }
      sequence := sequence + 1;
      return true;
    }

    /** One command. `batch` commands take no slot and enter no table; `accepted` says whether the
      * socket took the packet header. */
    method Operation(batch: bool, accepted: bool) returns (outcome: Outcome)
      modifies this`pending, this`ran, this`issued, this`sequence, semaphore`outstanding
      ensures outcome == if !old(connected) then NotConnected
        else if !batch && old(semaphore.outstanding) >= semaphore.depth then Blocked
        else if accepted then Sent else SendError
      ensures outcome == NotConnected ==> Answered(old(View()), 0, View())
      ensures outcome == Blocked ==> View() == old(View())
      ensures outcome == Sent ==> View() == Headed(old(View()), batch)
      ensures outcome == SendError ==> Answered(Headed(old(View()), batch), 0, View())
      ensures old(pending) == map[] || old(connected) ==>
        Run(old(View()), OperationSteps(old(View()), batch, outcome)) == Some(View())
    {
      if !connected {
        OnResponse(0);
        return NotConnected;
      }
      ghost var before := View();
      var ok := BuildHeader(batch);
      if !ok {
        return Blocked;
      }
      if accepted {
        SentIsRun(before, batch, View());
        return Sent;
      }
      ghost var header := View().(caller := Sending);
      OnResponse(0);
      SendErrorIsRun(before, batch, header, View());
      return SendError;
    }

    method Close()
      requires connected
      modifies this`pending, this`ran, this`issued, this`connected, semaphore`outstanding
      ensures View() == old(View()).(
        connected := false, pending := map[], outstanding := 0, listener := NoThread, issued := map[], ran := multiset{})
      ensures Run(old(View()), [BeginClose, ReplaceTable, ClearSlots, JoinListener]) == Some(View())
    {
      ghost var before := View();
      connected := false;
      pending := map[];
      issued, ran := map[], multiset{};
      semaphore.Clear();
      CloseIsRun(before, View());
    }

    /** One look at the condition `wait_q` sleeps on. */
    method WaitQ(k: int) returns (done: bool)
      ensures done == (View().outstanding <= k)
    {
      done := semaphore.outstanding <= k;
    }
  }

  /** The steps of a response, done in one go, have the effect `OnResponse` states. */
  ghost predicate Answered(s: State, q: nat, t: State) {
    if q in s.pending then t == s.(
      pending := Removed(s.pending, q),
      ran := s.ran + (if s.pending[q].NoDelegate? then multiset{} else multiset{(q, s.pending[q])}),
      outstanding := s.outstanding - One(0 < s.outstanding))
    else t == s
  }

  lemma HandlingLeads(who: Who, s1: State, s2: State, s3: State, t: State, q: nat)
    requires q in s1.pending && s1 == s1.Moved(who, Tested(q))
    requires t.ran == s1.ran + (if s1.pending[q].NoDelegate? then multiset{} else multiset{(q, s1.pending[q])})
    requires s2 == s1.(ran := t.ran).Moved(who, Called(q))
    requires s3 == s2.(pending := Removed(s1.pending, q)).Moved(who, Deleted)
    requires t == s3.(outstanding := s1.outstanding - One(0 < s1.outstanding)).Moved(who, Idle)
    ensures Leads(s1, CallCallback(who), s2) && Leads(s2, Delete(who), s3) && Leads(s3, Release(who), t)
  {
    hide Leads;
    CallLeads(who, s1, s2, q);
    DeleteLeads(who, s2, s3, q);
    ReleaseLeads(who, s3, t);
  }

  lemma CallLeads(who: Who, s: State, t: State, q: nat)
    requires q in s.pending && s == s.Moved(who, Tested(q))
    requires t == s.(ran := s.ran + (if s.pending[q].NoDelegate? then multiset{} else multiset{(q, s.pending[q])})).Moved(who, Called(q))
    ensures Leads(s, CallCallback(who), t)
  {
    assert s.At(who) == Tested(q);
  }

  lemma DeleteLeads(who: Who, s: State, t: State, q: nat)
    requires q in s.pending && s == s.Moved(who, Called(q)) && t == s.(pending := Removed(s.pending, q)).Moved(who, Deleted)
    ensures Leads(s, Delete(who), t)
  {
    assert s.At(who) == Called(q);
  }

  lemma ReleaseLeads(who: Who, s: State, t: State)
    requires s == s.Moved(who, Deleted) && t == s.(outstanding := s.outstanding - One(0 < s.outstanding)).Moved(who, Idle)
    ensures Leads(s, Release(who), t)
  {
    assert s.At(who) == Deleted;
  }

  lemma ResponseIsRun(s: State, q: nat, t: State)
    requires s.caller == Free && s.listener == Running(Idle) && Answered(s, q, t)
    ensures Run(s, Response(ListenerThread, Receive(q), s, q)) == Some(t)
  {
    if q in s.pending {
      var s1 := s.(listener := Running(Tested(q)));
      var s2 := s.(listener := Running(Called(q)), ran := t.ran);
      var s3 := s.(listener := Running(Deleted), ran := t.ran, pending := t.pending);
      assert Leads(s, Receive(q), s1);
      HandlingLeads(ListenerThread, s1, s2, s3, t, q);
      PathIsRun([s, s1, s2, s3, t], Response(ListenerThread, Receive(q), s, q));
    } else {
      assert Leads(s, Receive(q), t);
      PathIsRun([s, t], Response(ListenerThread, Receive(q), s, q));
    }
  }

  lemma FailureIsRun(s: State, t: State)
    requires s.caller == Sending && t.caller == Free && Answered(s, 0, t.(caller := Sending))
    ensures Run(s, Response(CallerThread, SendFails, s, 0)) == Some(t)
  {
    if 0 in s.pending {
      var s1 := s.(caller := Failing(Tested(0)));
      var s2 := s.(caller := Failing(Called(0)), ran := t.ran);
      var s3 := s.(caller := Failing(Deleted), ran := t.ran, pending := t.pending);
      assert Leads(s, SendFails, s1);
      HandlingLeads(CallerThread, s1, s2, s3, t, 0);
      PathIsRun([s, s1, s2, s3, t], Response(CallerThread, SendFails, s, 0));
    } else {
      assert Leads(s, SendFails, t);
      PathIsRun([s, t], Response(CallerThread, SendFails, s, 0));
    }
  }

  /** A batch command uses up a sequence number; any other also takes a slot and enters the table, and
    * the history, with the present delegate. */
  function Headed(s: State, batch: bool): State {
    if batch then s.(nextSeq := s.nextSeq + 1)
    else s.(outstanding := s.outstanding + 1, pending := s.pending[s.nextSeq := s.delegate],
            issued := s.issued[s.nextSeq := s.delegate], nextSeq := s.nextSeq + 1)
  }

  /** The state in which the header of a command is about to be sent. */
  ghost predicate HeaderBuilt(s: State, batch: bool, t: State) {
    && s.caller == Free && s.connected && t.caller == Sending
    && (batch || s.outstanding < s.depth)
    && t == Headed(s, batch).(caller := Sending)
  }

  lemma HeaderPath(s: State, batch: bool, t: State) returns (states: seq<State>)
    requires HeaderBuilt(s, batch, t)
    ensures Path(states, Header(batch)) && states[0] == s && states[|Header(batch)|] == t
  {
    if batch {
      states := [s, t];
      assert Leads(s, RegisterBatch, t);
    } else {
      var s1 := s.(outstanding := s.outstanding + 1, caller := Acquired);
      states := [s, s1, t];
      assert Leads(s, Acquire, s1);
      assert Leads(s1, Register, t);
    }
  }

  lemma SentIsRun(s: State, batch: bool, t: State)
    requires t.caller == Free && HeaderBuilt(s, batch, t.(caller := Sending))
    ensures Run(s, OperationSteps(s, batch, Sent)) == Some(t)
  {
    var header := t.(caller := Sending);
    var states := HeaderPath(s, batch, header);
    assert Leads(header, SendDone, t);
    PathIsRun([header, t], [SendDone]);
    HeaderFirst(s, states, Header(batch), [SendDone]);
  }

  lemma SendErrorIsRun(s: State, batch: bool, header: State, t: State)
    requires HeaderBuilt(s, batch, header) && t.caller == Free && Answered(header, 0, t.(caller := Sending))
    ensures Run(s, OperationSteps(s, batch, SendError)) == Some(t)
  {
    var states := HeaderPath(s, batch, header);
    FailureIsRun(header, t);
    var rest := Response(CallerThread, SendFails, header, 0);
    HeaderFirst(s, states, Header(batch), rest);
    assert 0 in Registered(s, batch).pending <==> 0 in header.pending;
  }

  lemma {:induction false} HeaderFirst(s: State, states: seq<State>, header: seq<Step>, rest: seq<Step>)
    requires Path(states, header) && s == states[0]
    ensures Run(s, header + rest) == Run(states[|header|], rest)
    decreases |header|
  {
    if header == [] {
      assert header + rest == rest;
    } else {
      assert Leads(states[0], header[0], states[0 + 1]);
      assert (header + rest)[1..] == header[1..] + rest;
      HeaderFirst(states[1], states[1..], header[1..], rest);
    }
  }

  lemma CloseIsRun(s: State, t: State)
    requires s.caller == Free && s.connected && s.listener == Running(Idle)
    requires t == s.(connected := false, pending := map[], issued := map[], ran := multiset{}, outstanding := 0, listener := NoThread)
    ensures Run(s, [BeginClose, ReplaceTable, ClearSlots, JoinListener]) == Some(t)
  {
    var s1 := Do(s, BeginClose);
    var s2 := Do(s1, ReplaceTable);
    var s3 := Do(s2, ClearSlots);
    PathIsRun([s, s1, s2, s3, t], [BeginClose, ReplaceTable, ClearSlots, JoinListener]);
  }
}
