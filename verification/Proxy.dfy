/** The message proxy in front of a drive: the main loop accepts requests into a table of pending
  * ones and issues a get; the drive's callback moves an entry, with its value, to a table of ready
  * ones; the main loop answers those. Both tables are keyed by the requested key alone.
  */
module Proxy {
  import opened Options

  type Key = string
  type Bytes = string

  type Drive = map<Key, Bytes>

  /** An error status counts as an empty value. */
  function Value(drive: Drive, key: Key): Bytes { if key in drive then drive[key] else "" }

  datatype Op = Get | GetSmart(size: nat)

  /** An accepted request; `id` is its place in the history of accepted ones. */
  datatype Request = Request(address: string, op: Op, key: Key, id: nat)

  datatype Done = Done(request: Request, value: Bytes)

  /** A message with a key, or bare bytes without one; `id` is that of the request, as a history. */
  datatype Reply = Reply(address: string, key: Option<Key>, body: Bytes, id: nat)

  /** A GET is answered with the value, a GETSMART with so many zero bytes whatever the value. */
  function Answer(d: Done): Reply {
    match d.request.op
    case Get => Reply(d.request.address, Some(d.request.key), d.value, d.request.id)
    case GetSmart(size) => Reply(d.request.address, None, seq(size, _ => '\0'), d.request.id)
  }

  datatype Main = Idle | Issuing(key: Key) | Replying(done: Done)

  datatype Listener = Listening | Moving(done: Done) | Dead

  datatype State = State(
    pending: map<Key, Request>, ready: map<Key, Done>, inFlight: multiset<Key>,
    main: Main, listener: Listener,
    accepted: seq<Request>, replies: seq<Reply>)

  function Init(): State { State(map[], map[], multiset{}, Idle, Listening, [], []) }

  datatype Step =
    | Accept(address: string, op: Op, key: Key)   // a message arrives and enters the table
    | Issue                                       // the get goes out to the drive
    | Respond(key: Key)                           // the callback takes the entry out
    | Insert                                      // and puts it, with its value, among the ready
    | PopReady(key: Key)                          // the main loop takes some ready entry
    | Send

  predicate Enabled(s: State, step: Step) {
    match step
    case Accept(_, _, _) => s.main.Idle?
    case Issue => s.main.Issuing?
    case Respond(key) => s.listener.Listening? && key in s.inFlight
    case Insert => s.listener.Moving?
    case PopReady(key) => s.main.Idle? && key in s.ready
    case Send => s.main.Replying?
  }

  function Do(drive: Drive, s: State, step: Step): State
    requires Enabled(s, step)
  {
    match step
    case Accept(address, op, key) =>
      var r := Request(address, op, key, |s.accepted|);
      s.(pending := s.pending[key := r], accepted := s.accepted + [r], main := Issuing(key))
    case Issue => s.(inFlight := s.inFlight + multiset{s.main.key}, main := Idle)
    case Respond(key) =>
      if key in s.pending then
        s.(inFlight := s.inFlight - multiset{key}, pending := Removed(s.pending, key),
           listener := Moving(Done(s.pending[key], Value(drive, key))))
      else
        s.(inFlight := s.inFlight - multiset{key}, listener := Dead)
    case Insert => s.(ready := s.ready[s.listener.done.request.key := s.listener.done], listener := Listening)
    case PopReady(key) => s.(ready := Removed(s.ready, key), main := Replying(s.ready[key]))
    case Send => s.(replies := s.replies + [Answer(s.main.done)], main := Idle)
  }

  // ----- Where a request is -----

  function Count(replies: seq<Reply>, id: nat): nat {
    if replies == [] then 0 else Count(replies[..|replies| - 1], id) + One(replies[|replies| - 1].id == id)
  }

  predicate IsPending(s: State, r: Request) { r.key in s.pending && s.pending[r.key] == r }

  predicate IsMoving(s: State, r: Request) { s.listener.Moving? && s.listener.done.request == r }

  predicate IsReady(s: State, r: Request) { r.key in s.ready && s.ready[r.key].request == r }

  predicate IsReplying(s: State, r: Request) { s.main.Replying? && s.main.done.request == r }

  /** In how many places the request is: still to be answered, or among the replies sent. */
  function Places(s: State, r: Request): nat {
    One(IsPending(s, r)) + One(IsMoving(s, r)) + One(IsReady(s, r)) + One(IsReplying(s, r)) + Count(s.replies, r.id)
  }

  /** Nothing but accepted requests is anywhere, under its own key and with its key's value. */
  ghost predicate EntryInv(drive: Drive, s: State) {
    && (forall id :: 0 <= id < |s.accepted| ==> s.accepted[id].id == id)
    && (forall key <- s.pending :: s.pending[key].key == key && Known(s, s.pending[key]))
    && (forall key <- s.ready :: s.ready[key].request.key == key && Good(drive, s, s.ready[key]))
    && (s.listener.Moving? ==> Good(drive, s, s.listener.done))
    && (s.main.Replying? ==> Good(drive, s, s.main.done))
    && (forall i :: 0 <= i < |s.replies| ==> Right(drive, s, s.replies[i]))
  }

  predicate Known(s: State, r: Request) {
    r.id < |s.accepted| && s.accepted[r.id] == r
  }

  predicate Good(drive: Drive, s: State, d: Done) {
    Known(s, d.request) && d.value == Value(drive, d.request.key)
  }

  /** The reply goes to the address of its request, with the drive's value for its own key, or with so
    * many zeros. */
  predicate Right(drive: Drive, s: State, reply: Reply) {
    reply.id < |s.accepted| && Answers(s.accepted[reply.id], reply)
    && (s.accepted[reply.id].op.Get? ==>
          var key := s.accepted[reply.id].key; reply.body == if key in drive then drive[key] else "")
  }

  /** The reply fits the request, except for what the value is. */
  predicate Answers(r: Request, reply: Reply) {
    && reply.address == r.address && reply.id == r.id
    && match r.op
       case Get => reply.key == Some(r.key)
       case GetSmart(size) => reply.key == None && |reply.body| == size && forall k :: 0 <= k < size ==> reply.body[k] == '\0'
  }

  /** Every accepted request is in exactly one place. */
  ghost predicate Conserved(s: State) {
    forall id :: 0 <= id < |s.accepted| ==> Places(s, s.accepted[id]) == 1
  }

  /** A table entry is about to be overwritten. */
  predicate Collides(s: State, step: Step) {
    || (step.Accept? && step.key in s.pending)
    || (step.Insert? && s.listener.Moving? && s.listener.done.request.key in s.ready)
  }

  lemma StepKeepsEntries(drive: Drive, s: State, step: Step)
    requires EntryInv(drive, s) && Enabled(s, step)
    ensures EntryInv(drive, Do(drive, s, step))
  {
    var t := Do(drive, s, step);
    StepKeepsTables(drive, s, step);
    forall i | 0 <= i < |t.replies| ensures Right(drive, t, t.replies[i]) {
      StepKeepsReply(drive, s, step, i);
    }
  }

  lemma StepKeepsTables(drive: Drive, s: State, step: Step)
    requires EntryInv(drive, s) && Enabled(s, step)
    ensures var t := Do(drive, s, step);
      && (forall key <- t.pending :: t.pending[key].key == key && Known(t, t.pending[key]))
      && (forall key <- t.ready :: t.ready[key].request.key == key && Good(drive, t, t.ready[key]))
      && (t.listener.Moving? ==> Good(drive, t, t.listener.done))
      && (t.main.Replying? ==> Good(drive, t, t.main.done))
  {
    StepKeepsReady(drive, s, step);
  }

  lemma StepKeepsReady(drive: Drive, s: State, step: Step)
    requires EntryInv(drive, s) && Enabled(s, step)
    ensures var t := Do(drive, s, step);
      forall key <- t.ready :: t.ready[key].request.key == key && Good(drive, t, t.ready[key])
  {
  }

  lemma StepKeepsReply(drive: Drive, s: State, step: Step, i: nat)
    requires EntryInv(drive, s) && Enabled(s, step) && i < |Do(drive, s, step).replies|
    ensures Right(drive, Do(drive, s, step), Do(drive, s, step).replies[i])
  {
    assert i < |s.replies| ==> Right(drive, s, s.replies[i]);
  }

  /** Requests are conserved by every step, except exactly by the steps that overwrite an entry. */
  lemma StepConservesIff(drive: Drive, s: State, step: Step)
    requires EntryInv(drive, s) && Conserved(s) && Enabled(s, step)
    ensures Conserved(Do(drive, s, step)) <==> !Collides(s, step)
  {
    var t := Do(drive, s, step);
    if Collides(s, step) {
      var lost := if step.Accept? then s.pending[step.key] else s.ready[s.listener.done.request.key].request;
      assert Places(s, lost) == 1;
      assert Places(t, t.accepted[lost.id]) == 0;
    } else {
      forall id | 0 <= id < |t.accepted|
        ensures Places(t, t.accepted[id]) == 1
      {
        PlaceAfter(drive, s, step, id);
      }
    }
  }

  lemma PlaceAfter(drive: Drive, s: State, step: Step, id: nat)
    requires EntryInv(drive, s) && Conserved(s) && Enabled(s, step) && !Collides(s, step)
    requires id < |Do(drive, s, step).accepted|
    ensures Places(Do(drive, s, step), Do(drive, s, step).accepted[id]) == 1
  {
    if id < |s.accepted| {
      assert Places(s, s.accepted[id]) == 1;
      if step.Send? {
        SendMoves(drive, s, s.accepted[id]);
      } else if step.Accept? {
        AcceptMoves(drive, s, step, s.accepted[id]);
      } else {
        StepMoves(drive, s, step, s.accepted[id]);
      }
    } else {
      NewPlace(drive, s, step);
    }
  }

  lemma SendMoves(drive: Drive, s: State, r: Request)
    requires EntryInv(drive, s) && Enabled(s, Send) && Known(s, r)
    ensures Places(Do(drive, s, Send), r) == Places(s, r)
  {
    assert Do(drive, s, Send).replies[..|s.replies|] == s.replies;
  }

  lemma AcceptMoves(drive: Drive, s: State, step: Step, r: Request)
    requires EntryInv(drive, s) && step.Accept? && Enabled(s, step) && !Collides(s, step) && Known(s, r)
    ensures Places(Do(drive, s, step), r) == Places(s, r)
  {
  }

  lemma StepMoves(drive: Drive, s: State, step: Step, r: Request)
    requires EntryInv(drive, s) && Enabled(s, step) && !Collides(s, step) && Known(s, r)
    requires step.Issue? || step.Respond? || step.Insert? || step.PopReady?
    ensures Places(Do(drive, s, step), r) == Places(s, r)
  {
  }

  lemma NewPlace(drive: Drive, s: State, step: Step)
    requires EntryInv(drive, s) && step.Accept? && Enabled(s, step)
    ensures var t := Do(drive, s, step); Places(t, t.accepted[|s.accepted|]) == 1
  {
    NoReplyYet(s.replies, |s.accepted|);
  }

  lemma {:induction false} NoReplyYet(replies: seq<Reply>, id: nat)
    requires forall i :: 0 <= i < |replies| ==> replies[i].id < id
    ensures Count(replies, id) == 0
  {
    if replies != [] {
      NoReplyYet(replies[..|replies| - 1], id);
    }
  }

  // ----- Runs in which live keys are distinct -----

  function Run(drive: Drive, s: State, steps: seq<Step>): Option<State>
    decreases |steps|
  {
    if steps == [] then Some(s)
    else if Enabled(s, steps[0]) then Run(drive, Do(drive, s, steps[0]), steps[1..])
    else None
  }

  /** A request for this key is accepted and not yet taken up for its reply. */
  predicate KeyLive(s: State, key: Key) {
    key in s.pending || key in s.ready || (s.listener.Moving? && s.listener.done.request.key == key)
  }

  /** The assumption the source states in a comment: no request for a key that is still live. */
  predicate Distinct(drive: Drive, s: State, steps: seq<Step>)
    decreases |steps|
  {
    steps != [] && Enabled(s, steps[0]) ==>
      !(steps[0].Accept? && KeyLive(s, steps[0].key)) && Distinct(drive, Do(drive, s, steps[0]), steps[1..])
  }

  /** Every pending key is in flight once, or about to be; nothing else is in flight; no key is in
    * two tables. */
  ghost predicate FlightInv(s: State) {
    && !s.listener.Dead?
    && (forall key: Key :: s.inFlight[key] == One(key in s.pending && s.main != Issuing(key)))
    && (s.main.Issuing? ==> s.main.key in s.pending)
    && s.pending.Keys !! s.ready.Keys
    && (s.listener.Moving? ==> s.listener.done.request.key !in s.pending && s.listener.done.request.key !in s.ready)
  }

  lemma StepKeepsFlight(drive: Drive, s: State, step: Step)
    requires EntryInv(drive, s) && FlightInv(s) && Enabled(s, step)
    requires !(step.Accept? && KeyLive(s, step.key))
    ensures FlightInv(Do(drive, s, step)) && !Collides(s, step)
  {
    var t := Do(drive, s, step);
    forall key: Key
      ensures t.inFlight[key] == One(key in t.pending && t.main != Issuing(key))
    {
      assert s.inFlight[key] == One(key in s.pending && s.main != Issuing(key));
      assert step.Respond? ==> s.inFlight[step.key] == One(step.key in s.pending && s.main != Issuing(step.key));
    }
  }

  lemma {:induction false} RunConserves(drive: Drive, s: State, steps: seq<Step>)
    requires EntryInv(drive, s) && Conserved(s) && FlightInv(s)
    requires Run(drive, s, steps).Some? && Distinct(drive, s, steps)
    ensures var t := Run(drive, s, steps).value; EntryInv(drive, t) && Conserved(t) && FlightInv(t)
    decreases |steps|
  {
    if steps != [] {
      StepKeepsEntries(drive, s, steps[0]);
      StepKeepsFlight(drive, s, steps[0]);
      StepConservesIff(drive, s, steps[0]);
      RunConserves(drive, Do(drive, s, steps[0]), steps[1..]);
    }
  }

  lemma {:induction false} RunKeepsEntries(drive: Drive, s: State, steps: seq<Step>)
    requires EntryInv(drive, s) && Run(drive, s, steps).Some?
    ensures EntryInv(drive, Run(drive, s, steps).value)
    decreases |steps|
  {
    if steps != [] {
      StepKeepsEntries(drive, s, steps[0]);
      RunKeepsEntries(drive, Do(drive, s, steps[0]), steps[1..]);
    }
  }

  datatype Message = Message(address: string, op: Op, key: Key)

  /** The messages that arrive in a run, in order. */
  function Arrivals(steps: seq<Step>): seq<Message>
    decreases |steps|
  {
    if steps == [] then []
    else if steps[0].Accept? then [Message(steps[0].address, steps[0].op, steps[0].key)] + Arrivals(steps[1..])
    else Arrivals(steps[1..])
  }

  predicate IsRequest(r: Request, m: Message, id: nat) {
    r.address == m.address && r.op == m.op && r.key == m.key && r.id == id
  }

  /** The requests `now` are those `was` and one for each of these messages, in order. */
  ghost predicate Joined(was: seq<Request>, arrivals: seq<Message>, now: seq<Request>) {
    && |now| == |was| + |arrivals| && (forall k :: 0 <= k < |was| ==> now[k] == was[k])
    && forall k :: |was| <= k < |now| ==> IsRequest(now[k], arrivals[k - |was|], k)
  }

  lemma JoinedFirst(was: seq<Request>, r: Request, m: Message, arrivals: seq<Message>, now: seq<Request>)
    requires IsRequest(r, m, |was|) && Joined(was + [r], arrivals, now)
    ensures Joined(was, [m] + arrivals, now)
  {
    assert now[|was|] == (was + [r])[|was|];
    assert forall k :: 0 <= k < |was| ==> now[k] == (was + [r])[k];
  }

  /** The requests accepted are the messages that arrived, each with its own address, operation and
    * key. */
  lemma {:induction false} AcceptedAreArrivals(drive: Drive, s: State, steps: seq<Step>)
    requires Run(drive, s, steps).Some?
    ensures Joined(s.accepted, Arrivals(steps), Run(drive, s, steps).value.accepted)
    decreases |steps|
  {
    if steps != [] {
      var step, u := steps[0], Do(drive, s, steps[0]);
      AcceptedAreArrivals(drive, u, steps[1..]);
      if step.Accept? {
        var r := Request(step.address, step.op, step.key, |s.accepted|);
        assert u.accepted == s.accepted + [r];
        hide Do, Enabled, Joined;
        JoinedFirst(s.accepted, r, Message(step.address, step.op, step.key), Arrivals(steps[1..]), Run(drive, s, steps).value.accepted);
      }
    }
  }

  /** In any run whatever, each reply goes to the address from which the message it answers came; a
    * GET gets its own key back with the drive's value for it, empty if there is none, a GETSMART as
    * many zeros as it asked for. */
  lemma RepliesAreRight(drive: Drive, steps: seq<Step>, i: nat)
    requires Run(drive, Init(), steps).Some? && i < |Run(drive, Init(), steps).value.replies|
    ensures var (reply, arrivals) := (Run(drive, Init(), steps).value.replies[i], Arrivals(steps));
      && reply.id < |arrivals|
      && var Message(address, op, key) := arrivals[reply.id];
      && reply.address == address
      && (op == Get ==> reply.key == Some(key) && reply.body == if key in drive then drive[key] else "")
      && (op.GetSmart? ==> reply.key == None && |reply.body| == op.size && forall k :: 0 <= k < op.size ==> reply.body[k] == '\0')
  {
    RunKeepsEntries(drive, Init(), steps);
    AcceptedAreArrivals(drive, Init(), steps);
    var t := Run(drive, Init(), steps).value;
    assert Right(drive, t, t.replies[i]);
    var id := t.replies[i].id;
    assert IsRequest(t.accepted[id], Arrivals(steps)[id - 0], id);
  }

  /** With distinct live keys every accepted request is always in exactly one place, and a proxy
    * that has nothing left to do has answered each request exactly once. */
  lemma EachRequestAnsweredOnce(drive: Drive, steps: seq<Step>, id: nat)
    requires Run(drive, Init(), steps).Some? && Distinct(drive, Init(), steps)
    requires id < |Run(drive, Init(), steps).value.accepted|
    ensures var t := Run(drive, Init(), steps).value;
      && Places(t, t.accepted[id]) == 1
      && !t.listener.Dead?
      && ((forall step :: Enabled(t, step) ==> step.Accept?) ==>
            exists i :: 0 <= i < |t.replies| && OnlyReplyTo(t.replies, id, i))
  {
    RunConserves(drive, Init(), steps);
    var t := Run(drive, Init(), steps).value;
    if forall step :: Enabled(t, step) ==> step.Accept? {
      IdleMeansAnswered(drive, t, id);
      var i := OnlyReply(t.replies, id);
    }
  }

  predicate OnlyReplyTo(replies: seq<Reply>, id: nat, i: int) {
    forall j :: 0 <= j < |replies| ==> (replies[j].id == id <==> j == i)
  }

  lemma {:induction false} OnlyReply(replies: seq<Reply>, id: nat) returns (i: nat)
    requires Count(replies, id) == 1
    ensures i < |replies| && OnlyReplyTo(replies, id, i)
  {
    var n := |replies| - 1;
    if replies[n].id == id {
      i := n;
      NoReply(replies[..n], id);
    } else {
      i := OnlyReply(replies[..n], id);
    }
  }

  lemma {:induction false} NoReply(replies: seq<Reply>, id: nat)
    requires Count(replies, id) == 0
    ensures forall j :: 0 <= j < |replies| ==> replies[j].id != id
  {
    if replies != [] {
      NoReply(replies[..|replies| - 1], id);
    }
  }

  lemma IdleMeansAnswered(drive: Drive, t: State, id: nat)
    requires EntryInv(drive, t) && FlightInv(t) && id < |t.accepted| && Places(t, t.accepted[id]) == 1
    requires forall step :: Enabled(t, step) ==> step.Accept?
    ensures Count(t.replies, id) == 1
  {
    var r := t.accepted[id];
    assert !Enabled(t, Issue) && !Enabled(t, Insert) && !Enabled(t, Send);
    assert !Enabled(t, Respond(r.key)) && !Enabled(t, PopReady(r.key));
    assert t.inFlight[r.key] == One(r.key in t.pending && t.main != Issuing(r.key));
  }

  // ----- No request waits for ever -----

  /** Steps still needed: five for a request whose get is to be issued, and one less for each stage it
    * has passed. */
  function StepsLeft(s: State): nat {
    4 * |s.pending| + One(s.main.Issuing?) + 3 * One(s.listener.Moving?) + 2 * |s.ready| + One(s.main.Replying?)
  }

  lemma StepCountsDown(drive: Drive, s: State, step: Step)
    requires EntryInv(drive, s) && FlightInv(s) && Enabled(s, step) && !(step.Accept? && KeyLive(s, step.key))
    ensures StepsLeft(Do(drive, s, step)) == StepsLeft(s) + if step.Accept? then 5 else -1
  {
    match step
    case Respond(key) =>
      RemovedSize(s.pending, key);
    case PopReady(key) => RemovedSize(s.ready, key);
    case _ =>
  }

  function NotAccepts(steps: seq<Step>): nat
    decreases |steps|
  {
    if steps == [] then 0 else One(!steps[0].Accept?) + NotAccepts(steps[1..])
  }

  /** With distinct live keys the proxy and the drive take five steps for each accepted request and no
    * more; when none is left, and only then, nothing but a new message can happen, and by
    * EachRequestAnsweredOnce every request has been answered. */
  lemma {:induction false} FiveStepsPerRequest(drive: Drive, s: State, steps: seq<Step>)
    requires EntryInv(drive, s) && Conserved(s) && FlightInv(s)
    requires Run(drive, s, steps).Some? && Distinct(drive, s, steps)
    ensures var t := Run(drive, s, steps).value;
      && NotAccepts(steps) + StepsLeft(t) == StepsLeft(s) + 5 * (|t.accepted| - |s.accepted|)
      && (StepsLeft(t) == 0 <==> forall step :: Enabled(t, step) ==> step.Accept?)
    decreases |steps|
  {
    if steps == [] {
      NothingLeftIff(s);
    } else {
      StepKeepsEntries(drive, s, steps[0]);
      StepKeepsFlight(drive, s, steps[0]);
      StepConservesIff(drive, s, steps[0]);
      StepCountsDown(drive, s, steps[0]);
      FiveStepsPerRequest(drive, Do(drive, s, steps[0]), steps[1..]);
    }
  }

  lemma NothingLeftIff(s: State)
    requires FlightInv(s)
    ensures StepsLeft(s) == 0 <==> forall step :: Enabled(s, step) ==> step.Accept?
  {
    if StepsLeft(s) > 0 {
      if s.main.Issuing? {
        assert Enabled(s, Issue);
      } else if s.main.Replying? {
        assert Enabled(s, Send);
      } else if s.listener.Moving? {
        assert Enabled(s, Insert);
      } else if key :| key in s.ready {
        assert Enabled(s, PopReady(key));
      } else {
        var key :| key in s.pending;
        assert s.inFlight[key] == One(key in s.pending && s.main != Issuing(key));
        assert Enabled(s, Respond(key));
      }
    }
  }

  lemma RunOfOne(drive: Drive, s: State, step: Step)
    requires Enabled(s, step)
    ensures Run(drive, s, [step]) == Some(Do(drive, s, step))
  {
    assert [step][1..] == [];
  }

  lemma RunOfTwo(drive: Drive, s: State, first: Step, second: Step)
    requires Enabled(s, first) && Enabled(Do(drive, s, first), second)
    ensures Run(drive, s, [first, second]) == Some(Do(drive, Do(drive, s, first), second))
  {
    assert [first, second][1..] == [second];
    RunOfOne(drive, Do(drive, s, first), second);
  }

  // ----- The proxy as a class -----

  /** Between two turns of the main loop, with no callback under way. `accepted` and `replies` are
    * what came in and went out; `inFlight` is the drive's part. */
  class ProxyServer {
    var pending: map<Key, Request>
    var ready: map<Key, Done>
    var accepted: seq<Request>
    var replies: seq<Reply>
    var listening: bool
    ghost var inFlight: multiset<Key>

    ghost function View(): State
      reads this
    {
      State(pending, ready, inFlight, Idle, if listening then Listening else Dead, accepted, replies)
    }

    constructor ()
      ensures View() == Init()
    {
      pending, ready, accepted, replies, listening := map[], map[], [], [], true;
      inFlight := multiset{};
    }

    /** The first half of the main loop, for a GET or GETSMART message. */
    method Receive(ghost drive: Drive, address: string, op: Op, key: Key)
      modifies this`pending, this`inFlight, this`accepted
      ensures accepted == old(accepted) + [Request(address, op, key, |old(accepted)|)]
      ensures pending == old(pending)[key := Request(address, op, key, |old(accepted)|)] && inFlight == old(inFlight) + multiset{key}
      ensures Run(drive, old(View()), [Accept(address, op, key), Issue]) == Some(View())
    {
      var r := Request(address, op, key, |accepted|);
      pending := pending[key := r];
      accepted := accepted + [r];
      inFlight := inFlight + multiset{key};
      RunOfTwo(drive, old(View()), Accept(address, op, key), Issue);
    }

    /** The callback for a response to this key; `found` is its status. An unknown key raises
      * KeyError, which ends the listener. */
    method DataCallback(ghost drive: Drive, key: Key, found: bool, value: Bytes)
      requires listening && key in inFlight
      requires found == (key in drive) && (found ==> value == drive[key])
      requires EntryInv(drive, View())
      modifies this`pending, this`ready, this`inFlight, this`listening
      ensures inFlight == old(inFlight) - multiset{key}
      ensures key !in old(pending) ==> !listening && pending == old(pending) && ready == old(ready)
      ensures key in old(pending) ==>
        && listening && pending == Removed(old(pending), key)
        && ready == old(ready)[key := Done(old(pending)[key], if found then value else "")]
      ensures Run(drive, old(View()), [Respond(key)] + if key in old(pending) then [Insert] else []) == Some(View())
    {
      inFlight := inFlight - multiset{key};
      if key !in pending {
        listening := false;
        RunOfOne(drive, old(View()), Respond(key));
        return;
      }
      var r := pending[key];
      pending := Removed(pending, key);
      ready := ready[key := Done(r, if found then value else "")];
      RunOfTwo(drive, old(View()), Respond(key), Insert);
    }

    /** The second half of the main loop: answer some ready request, if there is one. */
    method SendResponse(ghost drive: Drive) returns (ghost key: Option<Key>)
      modifies this`ready, this`replies
      ensures old(ready) == map[] ==> key == None && View() == old(View())
      ensures old(ready) != map[] ==> key.Some? && Run(drive, old(View()), [PopReady(key.value), Send]) == Some(View())
      ensures old(ready) != map[] ==>
        && key.value in old(ready) && ready == Removed(old(ready), key.value)
        && |replies| == |old(replies)| + 1 && replies[..|old(replies)|] == old(replies)
        && var (done, reply) := (old(ready)[key.value], replies[|old(replies)|]);
        Answers(done.request, reply) && (done.request.op.Get? ==> reply.body == done.value)
    {
      if ready == map[] {
        return None;
      }
      var k :| k in ready;
      var done := ready[k];
      ready := Removed(ready, k);
      var (address, id) := (done.request.address, done.request.id);
      replies := replies + [
        match done.request.op
        case Get => Reply(address, Some(done.request.key), done.value, id)
        case GetSmart(size) => Reply(address, None, seq(size, _ => '\0'), id)];
      RunOfTwo(drive, old(View()), PopReady(k), Send);
      return Some(k);
    }
  }
}
