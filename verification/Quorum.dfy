/** The OVS client simulation: batches are written in groups, one batch per drive and group; the
  * next group starts once enough drives have acknowledged the commit of the current one, while
  * slower drives are still working on it or on older groups.
  */
module Quorum {
  import opened Options

  type Drive = string

  /** A commit of one group on one drive. */
  datatype Commit = Commit(drive: Drive, group: nat)

  datatype Setup = Setup(drives: set<Drive>, numOps: nat, numSuccess: nat) {
    function Quorum(): nat { if numSuccess == 0 then 1 else numSuccess }
  }

  datatype Phase = Top | Issuing(left: set<Drive>) | Waiting | Over

  /** `waiting` are commits whose callback has not run, `slots` those that occupy a slot of their
    * drive's client; `acked` and `failed` are histories of the callbacks. */
  datatype State = State(
    group: nat, successes: nat, completed: bool, killed: bool, phase: Phase,
    waiting: set<Commit>, slots: set<Commit>, acked: set<Commit>, failed: set<Commit>)

  function Init(): State { State(0, 0, false, false, Top, {}, {}, {}, {}) }

  datatype Step =
    | StartGroup
    | Issue(drive: Drive)
    | AllIssued
    | WaitReturns
    | Finish
    | Success(commit: Commit)    // the commit's callback, with a success status
    | Failure(commit: Commit)    // or any other status: it sets the kill switch
    | Release(commit: Commit)    // the slot is given back after the callback
    | Kill                       // another client, or a failed put, sets the shared kill switch

  /** The groups with a commit on this drive among these. */
  function GroupsOf(cs: set<Commit>, d: Drive): set<nat> {
    set c | c in cs && c.drive == d :: c.group
  }

  function Outstanding(s: State, d: Drive): nat {
    |GroupsOf(s.slots, d)|
  }

  predicate Enabled(p: Setup, s: State, step: Step) {
    match step
    case StartGroup => s.phase.Top? && !s.killed && s.group < p.numOps
    case Issue(d) => s.phase.Issuing? && d in s.phase.left && Outstanding(s, d) < p.numOps
    case AllIssued => s.phase == Issuing({})
    case WaitReturns => s.phase.Waiting? && s.completed
    case Finish => s.phase.Top? && (s.killed || s.group == p.numOps)
    case Success(c) => c in s.waiting
    case Failure(c) => c in s.waiting
    case Release(c) => c in s.slots && c !in s.waiting
    case Kill => true
  }

  function Do(p: Setup, s: State, step: Step): State
    requires Enabled(p, s, step)
  {
    match step
    case StartGroup => s.(group := s.group + 1, successes := 0, completed := false, phase := Issuing(p.drives))
    case Issue(d) =>
      var c := Commit(d, s.group);
      s.(waiting := s.waiting + {c}, slots := s.slots + {c}, phase := Issuing(s.phase.left - {d}))
    case AllIssued => s.(phase := Waiting)
    case WaitReturns => s.(phase := Top)
    case Finish => s.(phase := Over)
    case Success(c) => Counted(p, s.(waiting := s.waiting - {c}, acked := s.acked + {c}), c.group)
    case Failure(c) => s.(waiting := s.waiting - {c}, failed := s.failed + {c}, killed := true)
    case Release(c) => s.(slots := s.slots - {c})
    case Kill => s.(killed := true)
  }

  /** The part of the callback under the lock: only the current group counts. */
  function Counted(p: Setup, s: State, group: nat): State {
    if group != s.group then s
    else s.(successes := s.successes + 1, completed := s.completed || s.successes + 1 >= p.numSuccess)
  }

  /** The drives with a commit of this group among these. */
  function DrivesOf(cs: set<Commit>, group: nat): set<Drive> {
    set c | c in cs && c.group == group :: c.drive
  }

  /** The current group's commits are acknowledged, failed, still waiting, or not issued yet. */
  function NotIssued(p: Setup, s: State): set<Drive> {
    if s.phase.Issuing? then s.phase.left else {}
  }

  function Seen(s: State): set<Commit> { s.waiting + s.acked + s.failed }

  /** The event is set exactly when a quorum has acknowledged the current group, and a quorum has
    * acknowledged every earlier one. */
  ghost predicate QuorumInv(p: Setup, s: State) {
    && s.successes == |DrivesOf(s.acked, s.group)|
    && (s.completed <==> s.successes >= p.Quorum())
    && (s.phase.Top? && s.group > 0 ==> s.completed)
    && (forall g: nat :: 1 <= g < s.group ==> |DrivesOf(s.acked, g)| >= p.Quorum())
  }

  /** Each commit of the current group is acknowledged, failed, waiting, or not issued yet. */
  ghost predicate CommitInv(p: Setup, s: State) {
    && s.group <= p.numOps
    && NotIssued(p, s) <= p.drives
    && (s.phase.Issuing? || s.phase.Waiting? ==> s.group > 0)
    && s.waiting <= s.slots
    && s.waiting !! s.acked && s.waiting !! s.failed && s.acked !! s.failed
    && (forall c <- Seen(s) + s.slots :: 1 <= c.group <= s.group && c.drive in p.drives)
    && (forall c <- Seen(s) + s.slots :: c.group == s.group ==> c.drive !in NotIssued(p, s))
    && (s.group > 0 ==> forall d <- p.drives :: d in NotIssued(p, s) || Commit(d, s.group) in Seen(s))
  }

  /** A failed commit has set the kill switch; without it the run is over only after all groups. */
  ghost predicate KillInv(p: Setup, s: State) {
    (s.failed != {} ==> s.killed) && (s.phase.Over? && !s.killed ==> s.group == p.numOps && (s.group > 0 ==> s.completed))
  }

  ghost predicate Inv(p: Setup, s: State) {
    QuorumInv(p, s) && CommitInv(p, s) && KillInv(p, s)
  }

  lemma StepKeepsInv(p: Setup, s: State, step: Step)
    requires Inv(p, s) && Enabled(p, s, step)
    ensures Inv(p, Do(p, s, step))
  {
    StepKeepsCommits(p, s, step);
    match step
    case StartGroup => StartKeepsQuorum(p, s);
    case Success(c) => SuccessKeepsQuorum(p, s, c);
    case _ =>
  }

  lemma StepKeepsCommits(p: Setup, s: State, step: Step)
    requires CommitInv(p, s) && Enabled(p, s, step)
    ensures CommitInv(p, Do(p, s, step))
  {
    if step.Issue? {
      assert Commit(step.drive, s.group) !in Seen(s) + s.slots;
    }
  }

  lemma StartKeepsQuorum(p: Setup, s: State)
    requires Inv(p, s) && Enabled(p, s, StartGroup)
    ensures QuorumInv(p, Do(p, s, StartGroup))
  {
    assert DrivesOf(s.acked, s.group + 1) == {};
  }

  lemma SuccessKeepsQuorum(p: Setup, s: State, c: Commit)
    requires Inv(p, s) && Enabled(p, s, Success(c))
    ensures QuorumInv(p, Do(p, s, Success(c)))
  {
    forall g: nat
      ensures |DrivesOf(s.acked + {c}, g)| == |DrivesOf(s.acked, g)| + if g == c.group then 1 else 0
    {
      DrivesGrow(s.acked, c, g);
    }
  }

  lemma DrivesGrow(acked: set<Commit>, c: Commit, g: nat)
    requires c !in acked
    ensures |DrivesOf(acked + {c}, g)| == |DrivesOf(acked, g)| + if g == c.group then 1 else 0
  {
    if g == c.group {
      assert c.drive !in DrivesOf(acked, g);
      assert DrivesOf(acked + {c}, g) == DrivesOf(acked, g) + {c.drive};
    } else {
      assert DrivesOf(acked + {c}, g) == DrivesOf(acked, g);
    }
  }

  // ----- Whole runs -----

  ghost predicate Reachable(p: Setup, s: State, n: nat)
    decreases n
  {
    s == Init() || (n > 0 && exists r, step :: Reachable(p, r, n - 1) && Leads(p, r, step, s))
  }

  ghost predicate Leads(p: Setup, r: State, step: Step, s: State) {
    Enabled(p, r, step) && s == Do(p, r, step)
  }

  lemma {:induction false} ReachableInv(p: Setup, s: State, n: nat)
    requires Reachable(p, s, n)
    ensures Inv(p, s)
    decreases n
  {
    if s != Init() {
      var r, step :| Reachable(p, r, n - 1) && Leads(p, r, step, s);
      ReachableInv(p, r, n - 1);
      StepKeepsInv(p, r, step);
    }
  }

  /** A group is started only after a quorum of distinct drives has acknowledged each group before
    * it. */
  lemma QuorumBeforeNextGroup(p: Setup, s: State, n: nat, g: nat)
    requires Reachable(p, s, n) && 1 <= g
    requires g < s.group || (g == s.group && Enabled(p, s, StartGroup))
    ensures |DrivesOf(s.acked, g)| >= p.Quorum()
    ensures DrivesOf(s.acked, g) <= p.drives
  {
    ReachableInv(p, s, n);
  }

  /** The count is at all times the number of distinct drives that have acknowledged the commit of the
    * current group, and the event is set exactly when they are a quorum. */
  lemma CountIsDistinctDrives(p: Setup, s: State, n: nat)
    requires Reachable(p, s, n)
    ensures s.successes == |DrivesOf(s.acked, s.group)| && DrivesOf(s.acked, s.group) <= p.drives
    ensures s.completed <==> |DrivesOf(s.acked, s.group)| >= p.Quorum()
    ensures forall c <- s.acked :: c.group <= s.group
  {
    ReachableInv(p, s, n);
    assert forall c <- s.acked :: c in Seen(s);
  }

  /** So acknowledgements of older groups never count: one that comes late adds to the drives of its
    * own group, and the count stays the number of drives of the current one. */
  lemma LateNeverCounts(p: Setup, s: State, n: nat, c: Commit)
    requires Reachable(p, s, n) && Enabled(p, s, Success(c))
    ensures var t := Do(p, s, Success(c));
      && t.successes == |DrivesOf(t.acked, t.group)|
      && |DrivesOf(t.acked, c.group)| == |DrivesOf(s.acked, c.group)| + 1
      && (c.group != s.group ==> DrivesOf(t.acked, t.group) == DrivesOf(s.acked, s.group) && t.completed == s.completed)
  {
    ReachableInv(p, s, n);
    StepKeepsInv(p, s, Success(c));
    DrivesGrow(s.acked, c, c.group);
  }

  /** With a queue depth of `num_ops` a commit that is due never blocks on a slot. */
  lemma CommitNeverBlocks(p: Setup, s: State, n: nat, d: Drive)
    requires Reachable(p, s, n) && s.phase.Issuing? && d in s.phase.left
    ensures Outstanding(s, d) < p.numOps
    ensures Enabled(p, s, Issue(d))
  {
    ReachableInv(p, s, n);
    var groups := GroupsOf(s.slots, d);
    forall g | g in groups
      ensures 1 <= g < s.group
    {
      assert Commit(d, g) in s.slots;
    }
    Bounded(groups, s.group - 1);
  }

  lemma {:induction false} Bounded(groups: set<nat>, k: nat)
    requires forall g <- groups :: 1 <= g <= k
    ensures |groups| <= k
  {
    if k == 0 {
      assert groups == {};
    } else {
      Bounded(groups - {k}, k - 1);
    }
  }

  /** Once every drive has acknowledged the current group the wait returns, exactly if the quorum
    * asked for exists at all. */
  lemma WaitReturnsIff(p: Setup, s: State, n: nat)
    requires Reachable(p, s, n) && s.phase.Waiting?
    requires forall c <- s.waiting + s.failed :: c.group != s.group
    ensures Enabled(p, s, WaitReturns) <==> p.Quorum() <= |p.drives|
  {
    ReachableInv(p, s, n);
    forall d | d in p.drives
      ensures d in DrivesOf(s.acked, s.group)
    {
      assert Commit(d, s.group) in Seen(s);
    }
    assert DrivesOf(s.acked, s.group) == p.drives;
  }

  /** The state t comes n steps after s. */
  ghost predicate Reaches(p: Setup, s: State, t: State, n: nat)
    decreases n
  {
    if n == 0 then t == s else exists r, step :: Reaches(p, s, r, n - 1) && Leads(p, r, step, t)
  }

  /** Once a commit has failed, or another client has set the kill switch, no group is ever started
    * again. */
  lemma {:induction false} KilledForGood(p: Setup, s: State, t: State, n: nat)
    requires s.killed && Reaches(p, s, t, n)
    ensures t.killed && t.group == s.group && !Enabled(p, t, StartGroup)
    decreases n
  {
    if n > 0 {
      var r, step :| Reaches(p, s, r, n - 1) && Leads(p, r, step, t);
      KilledForGood(p, s, r, n - 1);
    }
  }

  lemma KillStops(p: Setup, s: State, step: Step)
    requires Enabled(p, s, step)
    ensures Do(p, s, step).killed <==> s.killed || step.Kill? || step.Failure?
    ensures !Init().killed && (p.numOps > 0 ==> Enabled(p, Init(), StartGroup))
  {
  }

  lemma FailureKills(p: Setup, s: State, n: nat, t: State, m: nat)
    requires Reachable(p, s, n) && s.failed != {} && Reaches(p, s, t, m)
    ensures t.group == s.group && !Enabled(p, t, StartGroup)
  {
    ReachableInv(p, s, n);
    KilledForGood(p, s, t, m);
  }

  /** A run that ends without the kill switch has had all its groups acknowledged by a quorum. */
  lemma OverMeansAllGroups(p: Setup, s: State, n: nat, g: nat)
    requires Reachable(p, s, n) && s.phase.Over? && !s.killed && 1 <= g <= p.numOps
    ensures |DrivesOf(s.acked, g)| >= p.Quorum() && s.failed == {}
  {
    ReachableInv(p, s, n);
  }

  // ----- Every run ends -----

  /** Steps left: three for each commit (issue, callback, release), three more for each group, and the
    * last one. */
  function StepsLeft(p: Setup, s: State): int {
    (p.numOps - s.group) * (3 * |p.drives| + 3) + |s.waiting| + |s.slots| + PhaseSteps(s.phase)
  }

  function PhaseSteps(phase: Phase): nat {
    match phase
    case Top => 1
    case Issuing(left) => 3 * |left| + 3
    case Waiting => 2
    case Over => 0
  }

  /** Every step but the kill switch uses up one of them. */
  lemma StepCountsDown(p: Setup, s: State, step: Step)
    requires CommitInv(p, s) && Enabled(p, s, step)
    ensures StepsLeft(p, Do(p, s, step)) == StepsLeft(p, s) - if step.Kill? then 0 else 1
  {
    hide StepsLeft, CommitInv, Do;
    if step.StartGroup? {
      StartCounts(p, s);
    } else if step.Issue? {
      IssueCounts(p, s, step.drive);
    } else {
      OtherCounts(p, s, step);
    }
  }

  lemma StartCounts(p: Setup, s: State)
    requires Enabled(p, s, StartGroup)
    ensures StepsLeft(p, Do(p, s, StartGroup)) == StepsLeft(p, s) - 1
  {
    OneGroupLess(p.numOps - s.group, 3 * |p.drives| + 3);
  }

  lemma IssueCounts(p: Setup, s: State, d: Drive)
    requires CommitInv(p, s) && Enabled(p, s, Issue(d))
    ensures StepsLeft(p, Do(p, s, Issue(d))) == StepsLeft(p, s) - 1
  {
    var t := Do(p, s, Issue(d));
    IssueSizes(p, s, d);
    assert t.group == s.group;
    hide *;
    IssueSteps(s.phase, t.phase);
    SameGroups(p, s, t);
  }

  lemma OtherCounts(p: Setup, s: State, step: Step)
    requires Enabled(p, s, step) && !step.StartGroup? && !step.Issue?
    ensures StepsLeft(p, Do(p, s, step)) == StepsLeft(p, s) - if step.Kill? then 0 else 1
  {
    var t := Do(p, s, step);
    OtherSizes(p, s, step);
    assert t.group == s.group;
    hide *;
    SameGroups(p, s, t);
  }

  lemma SameGroups(p: Setup, s: State, t: State)
    requires t.group == s.group
    ensures StepsLeft(p, t) - StepsLeft(p, s) ==
      |t.waiting| - |s.waiting| + |t.slots| - |s.slots| + PhaseSteps(t.phase) - PhaseSteps(s.phase)
  {
    hide PhaseSteps;
  }

  lemma IssueSteps(was: Phase, now: Phase)
    requires was.Issuing? && now.Issuing? && |now.left| == |was.left| - 1
    ensures PhaseSteps(now) == PhaseSteps(was) - 3
  {
  }

  lemma IssueSizes(p: Setup, s: State, d: Drive)
    requires CommitInv(p, s) && Enabled(p, s, Issue(d))
    ensures var t := Do(p, s, Issue(d));
      && |t.waiting| == |s.waiting| + 1 && |t.slots| == |s.slots| + 1
      && s.phase.Issuing? && t.phase.Issuing? && |t.phase.left| == |s.phase.left| - 1
  {
    var c := Commit(d, s.group);
    assert c !in Seen(s) + s.slots;
    assert c !in s.waiting && c !in s.slots;
    hide CommitInv;
    ElementMore(s.waiting, c);
    ElementMore(s.slots, c);
    ElementLess(s.phase.left, d);
  }

  lemma OtherSizes(p: Setup, s: State, step: Step)
    requires Enabled(p, s, step) && !step.StartGroup? && !step.Issue?
    ensures var t := Do(p, s, step);
      |t.waiting| - |s.waiting| + |t.slots| - |s.slots| + PhaseSteps(t.phase) - PhaseSteps(s.phase) == if step.Kill? then 0 else -1
  {
    match step
    case Success(c) => ElementLess(s.waiting, c);
    case Failure(c) => ElementLess(s.waiting, c);
    case Release(c) => ElementLess(s.slots, c);
    case _ =>
  }

  lemma OneGroupLess(n: int, w: int)
    ensures (n - 1) * w == n * w - w
  {
  }

  lemma ElementLess<T>(s: set<T>, x: T)
    requires x in s
    ensures |s - {x}| == |s| - 1
  {
  }

  lemma ElementMore<T>(s: set<T>, x: T)
    requires x !in s
    ensures |s + {x}| == |s| + 1
  {
  }

  /** Nothing but the kill switch can happen any more. */
  ghost predicate Stuck(p: Setup, s: State) {
    forall step :: Enabled(p, s, step) ==> step.Kill?
  }

  lemma StuckIsIdle(p: Setup, s: State)
    requires Stuck(p, s)
    ensures s.waiting == {} && s.slots == {}
  {
    assert forall c <- s.waiting :: Enabled(p, s, Success(c));
    assert forall c <- s.slots :: c !in s.waiting ==> Enabled(p, s, Release(c));
  }

  /** Where a run ends: it is over, or it waits in vain because some drive failed or there are fewer than
    * the quorum asks for. */
  lemma StuckIsOver(p: Setup, s: State, n: nat)
    requires Reachable(p, s, n) && Stuck(p, s)
    ensures s.waiting == {} && s.slots == {}
    ensures s.phase.Over? || s.phase.Waiting?
    ensures s.phase.Waiting? ==> s.failed != {} || |p.drives| < p.Quorum()
  {
    ReachableInv(p, s, n);
    StuckIsIdle(p, s);
    assert !Enabled(p, s, StartGroup) && !Enabled(p, s, Finish) && !Enabled(p, s, AllIssued) && !Enabled(p, s, WaitReturns);
    if s.phase.Issuing? {
      if d :| d in s.phase.left {
        CommitNeverBlocks(p, s, n, d);
      }
    }
    if s.phase.Waiting? && s.failed == {} {
      WaitReturnsIff(p, s, n);
    }
  }

  // ----- The client as a class -----

  class OVSClient {
    const setup: Setup
    var currentBatchGroup: nat
    var successResponseCount: nat
    var completedBatchGroup: bool
    var killSwitch: bool

    constructor (setup: Setup)
      ensures this.setup == setup
      ensures Shows(Init())
      ensures currentBatchGroup == 0 && successResponseCount == 0 && !completedBatchGroup && !killSwitch
    {
      this.setup := setup;
      currentBatchGroup, successResponseCount, completedBatchGroup, killSwitch := 0, 0, false, false;
    }

    /** This object holds the shared part of the state. */
    ghost predicate Shows(s: State)
      reads this
    {
      && s.group == currentBatchGroup && s.successes == successResponseCount
      && s.completed == completedBatchGroup && s.killed == killSwitch
    }

    /** The start of one turn of the loop in `run`. */
    method BeginGroup(ghost s: State) returns (go: bool)
      requires Shows(s) && s.phase.Top? && currentBatchGroup < setup.numOps
      modifies this
      ensures go == Enabled(setup, s, StartGroup)
      ensures go == !killSwitch && killSwitch == old(killSwitch)
      ensures go ==> currentBatchGroup == old(currentBatchGroup) + 1 && successResponseCount == 0 && !completedBatchGroup
      ensures !go ==>
        && currentBatchGroup == old(currentBatchGroup) && successResponseCount == old(successResponseCount)
        && completedBatchGroup == old(completedBatchGroup)
      ensures Shows(if go then Do(setup, s, StartGroup) else s)
    {
      if killSwitch {
        return false;
      }
      currentBatchGroup := currentBatchGroup + 1;
      successResponseCount := 0;
      completedBatchGroup := false;
      return true;
    }

    /** The callback captured by a commit of group `batchGroup`. */
    method Callback(ghost s: State, ghost drive: Drive, batchGroup: nat, success: bool)
      requires Shows(s) && Commit(drive, batchGroup) in s.waiting
      modifies this
      ensures currentBatchGroup == old(currentBatchGroup) && killSwitch == (old(killSwitch) || !success)
      ensures var counts := success && batchGroup == currentBatchGroup;
        && successResponseCount == old(successResponseCount) + (if counts then 1 else 0)
        && completedBatchGroup == (old(completedBatchGroup) || (counts && successResponseCount >= setup.numSuccess))
      ensures Shows(Do(setup, s, if success then Success(Commit(drive, batchGroup)) else Failure(Commit(drive, batchGroup))))
    {
      if success {
        if batchGroup == currentBatchGroup {
          successResponseCount := successResponseCount + 1;
          if successResponseCount >= setup.numSuccess {
            completedBatchGroup := true;
          }
        }
      } else {
        killSwitch := true;
      }
    }
  }
}
