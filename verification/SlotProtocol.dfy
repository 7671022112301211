/** The HTTP front end of the drive: request threads and key-value processes hand results over in
  * sixteen shared-memory slots. A slot is a length, which doubles as the completion flag (-1 while
  * unset), and a payload buffer that keeps whatever its previous users left in it.
  */
module SlotProtocol {
  import opened Options

  type Key = string
  type Bytes = string

  const MAX_PAYLOAD_LEN := 0x10_0000
  const MAX_SLOT_NUM := 16
  const QUEUE_DEPTH := 16

  /** What the drive answers for a key; absent keys get an error status. */
  type Drive = map<Key, Bytes>

  function Value(drive: Drive, key: Key): Bytes { if key in drive then drive[key] else "" }

  datatype Slot = Slot(len: int, payload: Bytes)

  /** `/get` or `/getsmart`, the latter with the decoded size it was given (0 for none). */
  datatype Op = Get | GetSmart(size: nat)

  function Zeros(size: nat): Bytes { seq(size, _ => '\0') }

  function Response(op: Op, payload: Bytes): Bytes {
    match op
    case Get => payload
    case GetSmart(size) => if size != 0 && |payload| > 0 then Zeros(size) else payload
  }

  /** `Polling` remembers the number of the ticket that was put for the request. */
  datatype Phase = Popped | Polling(n: nat) | Seen(plen: nat) | Copied(payload: Bytes) | Cleared(payload: Bytes)

  datatype Thread = Thread(key: Key, op: Op, idx: nat, phase: Phase)

  /** What travels through the request queue is a key and a slot number; `requester` is a history. */
  datatype Ticket = Ticket(key: Key, idx: nat, requester: nat)

  /** A command in a key-value process: taken from the queue; with its callback made the delegate;
    * in the pending table with the response to come; no longer in the table with the response to
    * come; in the table although its response came, because its callback raised. */
  datatype Stage = Held | Ready | Issued | Orphaned | Raised

  datatype Command = Command(proc: nat, stage: Stage)

  /** The listener thread of a process: waiting; with the payload of command `n` written to slot
    * `idx` and the length not yet set; before the release of a queue slot; about to report an error
    * itself. */
  datatype Listener = Listening | Writing(n: nat, idx: nat) | Releasing | Reporting

  /** `busy` is the ticket its loop deals with, `delegate` the one whose callback is the delegate,
    * `first` the one whose command got sequence number 0. */
  datatype Process = Process(busy: Option<nat>, delegate: Option<nat>, first: Option<nat>, listener: Listener)

  datatype Answer = Answer(key: Key, op: Op, body: Bytes)

  /** `tickets` are all tickets ever put, in order; the request queue is `tickets[head..]`, and a
    * command goes by the number of its ticket. `overflows` counts the callbacks that raised. */
  datatype State = State(
    slots: seq<Slot>, available: set<nat>, threads: map<nat, Thread>,
    tickets: seq<Ticket>, head: nat, commands: map<nat, Command>, procs: seq<Process>,
    answers: seq<Answer>, overflows: nat)

  ghost predicate IsInit(s: State) {
    && |s.slots| == MAX_SLOT_NUM
    && (forall i :: 0 <= i < MAX_SLOT_NUM ==> s.slots[i].len == -1 && |s.slots[i].payload| == MAX_PAYLOAD_LEN)
    && (forall i: nat :: i in s.available <==> i < MAX_SLOT_NUM)
    && s.threads == map[] && s.tickets == [] && s.head == 0 && s.commands == map[] && s.answers == []
    && (forall p :: 0 <= p < |s.procs| ==> s.procs[p] == Process(None, None, None, Listening))
    && s.overflows == 0
  }

  datatype Step =
    | Begin(t: nat, key: Key, op: Op, idx: nat)   // a request thread pops some available slot
    | Reject                                      // pop on the empty set: the request fails
    | Enqueue(t: nat)
    | Take(p: nat)                                // a key-value process gets the next ticket
    | Aim(n: nat)                                 // and makes its callback the delegate
    | Issue(n: nat)                               // and issues the command
    | Respond(n: nat)                             // the response: the callback, up to writing the payload
    | SetLength(p: nat)
    | Release(p: nat)
    | Expire(p: nat)                              // a command left in the table has timed out
    | Report(p: nat)                              // the client's own error, on sequence number 0
    | See(t: nat)
    | Copy(t: nat)
    | Clear(t: nat)
    | Return(t: nat)

  predicate At(s: State, t: nat) {
    t in s.threads && s.threads[t].idx < |s.slots|
  }

  predicate Runs(s: State, n: nat) {
    n in s.commands && n < |s.tickets| && s.commands[n].proc < |s.procs|
  }

  /** A ticket whose slot a callback can write to. */
  predicate Addressed(s: State, m: nat) {
    m < |s.tickets| && s.tickets[m].idx < |s.slots|
  }

  predicate InTable(s: State, n: nat) {
    n in s.commands && (s.commands[n].stage.Issued? || s.commands[n].stage.Raised?)
  }

  /** Queue slots of the client in use: its pending commands, and one about to be released. */
  function Outstanding(s: State, p: nat): nat
    requires p < |s.procs|
  {
    |set n <- s.commands | s.commands[n].proc == p && InTable(s, n)| + One(s.procs[p].listener.Releasing?)
  }

  /** Whose callback handles the response to a command: its own if it is in the table, otherwise the
    * delegate. */
  function Handler(s: State, n: nat): Option<nat>
    requires Runs(s, n)
  {
    if s.commands[n].stage.Issued? then Some(n) else s.procs[s.commands[n].proc].delegate
  }

  /** Whose callback gets an error the client reports: that of command 0 if it is in the table,
    * otherwise the delegate. */
  function Blamed(s: State, p: nat): Option<nat>
    requires p < |s.procs|
  {
    var first := s.procs[p].first;
    if first.Some? && InTable(s, first.value) then first else s.procs[p].delegate
  }

  predicate Enabled(drive: Drive, s: State, step: Step) {
    match step
    case Begin(t, _, _, idx) => t !in s.threads && idx in s.available
    case Reject => s.available == {}
    case Enqueue(t) => At(s, t) && s.threads[t].phase.Popped?
    case Take(p) => p < |s.procs| && s.procs[p].busy.None? && s.head < |s.tickets|
    case Aim(n) => Runs(s, n) && s.commands[n].stage.Held?
    case Issue(n) => Runs(s, n) && s.commands[n].stage.Ready? && Outstanding(s, s.commands[n].proc) < QUEUE_DEPTH
    case Respond(n) =>
      && Runs(s, n) && (s.commands[n].stage.Issued? || s.commands[n].stage.Orphaned?)
      && s.procs[s.commands[n].proc].listener.Listening?
      && (Handler(s, n).Some? ==> Addressed(s, Handler(s, n).value))
    case SetLength(p) =>
      && p < |s.procs| && s.procs[p].listener.Writing?
      && s.procs[p].listener.idx < |s.slots| && Runs(s, s.procs[p].listener.n)
    case Release(p) => p < |s.procs| && s.procs[p].listener.Releasing?
    case Expire(p) =>
      p < |s.procs| && s.procs[p].listener.Listening? && exists n <- s.commands :: s.commands[n] == Command(p, Raised)
    case Report(p) =>
      && p < |s.procs| && s.procs[p].listener.Reporting?
      && (Blamed(s, p).Some? ==> Addressed(s, Blamed(s, p).value))
    case See(t) => At(s, t) && s.threads[t].phase.Polling? && s.slots[s.threads[t].idx].len >= 0
    case Copy(t) => At(s, t) && s.threads[t].phase.Seen? && s.threads[t].phase.plen <= |s.slots[s.threads[t].idx].payload|
    case Clear(t) => At(s, t) && s.threads[t].phase.Copied?
    case Return(t) => At(s, t) && s.threads[t].phase.Cleared?
  }

  function Overwrite(payload: Bytes, value: Bytes): Bytes
    requires |value| <= |payload|
  {
    value + payload[|value|..]
  }

  function Turn(s: State, t: nat, phase: Phase): State
    requires t in s.threads
  {
    s.(threads := s.threads[t := s.threads[t].(phase := phase)])
  }

  /** What the request threads see apart from the slots, and the number of processes, stay. */
  predicate SameRequests(s: State, u: State) {
    && u.threads == s.threads && u.available == s.available && u.answers == s.answers
    && u.tickets == s.tickets && u.head == s.head && |u.slots| == |s.slots| && |u.procs| == |s.procs|
  }

  function Put(s: State, idx: nat, slot: Slot): (u: State)
    requires idx < |s.slots|
    ensures SameRequests(s, u)
  {
    s.(slots := s.slots[idx := slot])
  }

  function Listen(s: State, p: nat, listener: Listener): (u: State)
    requires p < |s.procs|
    ensures SameRequests(s, u)
  {
    s.(procs := s.procs[p := s.procs[p].(listener := listener)])
  }

  /** The end of a handled response. Only a command in the table held a queue slot. */
  function Finish(s: State, n: nat): (u: State)
    requires Runs(s, n)
    ensures SameRequests(s, u)
  {
    Listen(s, s.commands[n].proc, if s.commands[n].stage.Issued? then Releasing else Listening).(commands := Removed(s.commands, n))
  }

  /** The callback raised. A command in the table stays there. */
  function Overflow(s: State, n: nat): (u: State)
    requires Runs(s, n)
    ensures SameRequests(s, u)
  {
    Listen(s, s.commands[n].proc, Reporting).(
      commands := if s.commands[n].stage.Issued? then s.commands[n := s.commands[n].(stage := Raised)] else Removed(s.commands, n),
      overflows := s.overflows + 1)
  }

  /** A value that does not fit the buffer makes the callback raise before it writes anything. */
  function Handled(drive: Drive, s: State, n: nat): (u: State)
    requires Enabled(drive, s, Respond(n))
    ensures SameRequests(s, u)
  {
    if Handler(s, n).None? then s.(commands := Removed(s.commands, n))
    else
      var (key, idx) := (s.tickets[n].key, s.tickets[Handler(s, n).value].idx);
      var slot := s.slots[idx];
      if key !in drive then Finish(Put(s, idx, slot.(len := 0)), n)
      else if |drive[key]| > |slot.payload| then Overflow(s, n)
      else
        Listen(Put(s, idx, slot.(payload := Overwrite(slot.payload, drive[key]))), s.commands[n].proc, Writing(n, idx))
  }

  /** The reported error sets the length of the slot of whoever is blamed to 0. Command 0 leaves the
    * table for it, whether or not its own response is still to come. */
  function Reported(s: State, p: nat): (u: State)
    requires p < |s.procs| && (Blamed(s, p).Some? ==> Addressed(s, Blamed(s, p).value))
    ensures SameRequests(s, u) && u.overflows == s.overflows
  {
    if Blamed(s, p).None? then Listen(s, p, Listening)
    else
      var m := Blamed(s, p).value;
      var idx := s.tickets[m].idx;
      var t := Put(s, idx, s.slots[idx].(len := 0));
      if s.procs[p].first == Some(m) && InTable(s, m) then
        Listen(t, p, Releasing).(
          commands := if s.commands[m].stage.Issued? then s.commands[m := s.commands[m].(stage := Orphaned)] else Removed(s.commands, m))
      else Listen(t, p, Listening)
  }

  /** The available slots with one more. */
  function Freed(s: State, idx: nat): set<nat> {
    set i: nat | i < |s.slots| && (i == idx || i in s.available)
  }

  /** The steps of the request threads. */
  function ThreadDo(drive: Drive, s: State, step: Step): (u: State)
    requires Enabled(drive, s, step) && ByThread(step)
    ensures |u.slots| == |s.slots| && |u.procs| == |s.procs|
  {
    match step
    case Begin(t, key, op, idx) =>
      s.(available := Without(s.available, idx), threads := s.threads[t := Thread(key, op, idx, Popped)])
    case Reject => s
    case Enqueue(t) =>
      var th := s.threads[t];
      Turn(s, t, Polling(|s.tickets|)).(tickets := s.tickets + [Ticket(th.key, th.idx, t)])
    case See(t) => Turn(s, t, Seen(s.slots[s.threads[t].idx].len))
    case Copy(t) => Turn(s, t, Copied(s.slots[s.threads[t].idx].payload[..s.threads[t].phase.plen]))
    case Clear(t) =>
      var idx := s.threads[t].idx;
      Put(Turn(s, t, Cleared(s.threads[t].phase.payload)), idx, s.slots[idx].(len := -1))
    case Return(t) =>
      var th := s.threads[t];
      s.(available := Freed(s, th.idx), threads := Removed(s.threads, t),
         answers := s.answers + [Answer(th.key, th.op, Response(th.op, th.phase.payload))])
  }

  predicate ByThread(step: Step) {
    step.Begin? || step.Reject? || step.Enqueue? || step.See? || step.Copy? || step.Clear? || step.Return?
  }

  function Do(drive: Drive, s: State, step: Step): (u: State)
    requires Enabled(drive, s, step)
    ensures |u.slots| == |s.slots| && |u.procs| == |s.procs|
  {
    match step
    case Take(p) =>
      s.(head := s.head + 1, commands := s.commands[s.head := Command(p, Held)],
         procs := s.procs[p := s.procs[p].(busy := Some(s.head))])
    case Aim(n) =>
      var p := s.commands[n].proc;
      s.(commands := s.commands[n := Command(p, Ready)], procs := s.procs[p := s.procs[p].(delegate := Some(n))])
    case Issue(n) =>
      var p := s.commands[n].proc;
      var first := if s.procs[p].first.None? then Some(n) else s.procs[p].first;
      s.(commands := s.commands[n := Command(p, Issued)], procs := s.procs[p := s.procs[p].(busy := None, first := first)])
    case Respond(n) => Handled(drive, s, n)
    case SetLength(p) =>
      var (n, idx) := (s.procs[p].listener.n, s.procs[p].listener.idx);
      Finish(Put(s, idx, s.slots[idx].(len := |Value(drive, s.tickets[n].key)|)), n)
    case Release(p) => Listen(s, p, Listening)
    case Expire(p) => Listen(s, p, Reporting)
    case Report(p) => Reported(s, p)
    case _ => ThreadDo(drive, s, step)
  }

  // ----- One slot in memory -----

  /** A slot of shared memory, with the write of the callback and the read of the request. */
  class SharedSlot {
    var len: int
    const payload: array<char>

    constructor ()
      ensures len == -1 && payload.Length == MAX_PAYLOAD_LEN && fresh(payload)
    {
      len := -1;
      payload := new char[MAX_PAYLOAD_LEN](_ => '\0');
    }

    ghost function View(): Slot
      reads this, payload
    {
      Slot(len, payload[..])
    }

    /** The callback. `found` is the status of the response. Returns false if the value does not
      * fit, in which case nothing is written. */
    method Complete(found: bool, value: Bytes) returns (ok: bool)
      modifies this`len, payload
      ensures ok == (!found || |value| <= payload.Length)
      ensures !found ==> View() == old(View()).(len := 0)
      ensures found && ok ==> View() == Slot(|value|, Overwrite(old(payload[..]), value))
      ensures !ok ==> View() == old(View())
    {
      if !found {
        len := 0;
        return true;
      }
      if |value| > payload.Length {
        return false;
      }
      for i := 0 to |value|
        invariant len == old(len)
        invariant forall j :: 0 <= j < i ==> payload[j] == value[j]
        invariant forall j :: i <= j < payload.Length ==> payload[j] == old(payload[j])
      {
        payload[i] := value[i];
      }
      assert payload[..] == Overwrite(old(payload[..]), value);
      len := |value|;
      return true;
    }

    /** What the request does once it has seen the length set. */
    method Collect() returns (value: Bytes)
      requires 0 <= len <= payload.Length
      modifies this`len
      ensures value == old(View()).payload[..old(len)]
      ensures View() == old(View()).(len := -1)
    {
      value := payload[..len];
      len := -1;
    }
  }
}
