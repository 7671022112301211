/** The test suite of the drive qualification: subtests wait in `to_run` or have a result in
  * `complete`, and a run that was halted can be resumed or started over.
  */
module TestSuite {
  import opened Options

  /** A subtest class, by name; a result remembers the class it is an instance of. */
  type Subtest = string

  datatype Suite = Suite(toRun: seq<Option<Subtest>>, complete: seq<(nat, Subtest)>, runOrder: seq<nat>)

  // ----- The invariant -----

  /** Every index below `n` stands exactly once in the order. */
  ghost predicate IsOrder(order: seq<nat>, n: nat) {
    |order| == n && forall i: nat :: multiset(order)[i] == if i < n then 1 else 0
  }

  function Finished(complete: seq<(nat, Subtest)>): multiset<nat> {
    if complete == [] then multiset{}
    else Finished(complete[..|complete| - 1]) + multiset{complete[|complete| - 1].0}
  }

  ghost predicate ToRunAsAdded(toRun: seq<Option<Subtest>>, added: seq<Subtest>) {
    |toRun| == |added| && forall i: nat :: i < |added| && toRun[i].Some? ==> toRun[i].value == added[i]
  }

  ghost predicate ResultsAsAdded(complete: seq<(nat, Subtest)>, added: seq<Subtest>) {
    forall k :: 0 <= k < |complete| ==> complete[k].0 < |added| && complete[k].1 == added[complete[k].0]
  }

  /** One result for a subtest that is no longer to run, none for the others. */
  ghost predicate OneResult(toRun: seq<Option<Subtest>>, finished: multiset<nat>) {
    forall i: nat :: finished[i] == if i < |toRun| && toRun[i].None? then 1 else 0
  }

  /** Each subtest ever added is either still to run, as the class it was added as, or has exactly one
    * result, of that class. */
  ghost predicate Holds(s: Suite, added: seq<Subtest>) {
    && IsOrder(s.runOrder, |added|)
    && ToRunAsAdded(s.toRun, added)
    && ResultsAsAdded(s.complete, added)
    && OneResult(s.toRun, Finished(s.complete))
  }

  ghost predicate Distinct(order: seq<nat>) {
    forall j, k :: 0 <= j < k < |order| ==> order[j] != order[k]
  }

  lemma OrderInRange(order: seq<nat>, n: nat)
    requires IsOrder(order, n)
    ensures forall k :: 0 <= k < |order| ==> order[k] < n
    ensures forall i: nat :: i < n ==> i in order
    ensures Distinct(order)
  {
    forall k | 0 <= k < |order| ensures order[k] < n {
      assert multiset(order)[order[k]] >= 1;
    }
    forall i: nat | i < n ensures i in order {
      assert i in multiset(order);
    }
    forall j, k | 0 <= j < k < |order| ensures order[j] != order[k] {
      assert order == order[..k] + order[k..];
      assert order[j] == order[..k][j] && order[k] == order[k..][0];
      assert order[j] in multiset(order[..k]) && order[k] in multiset(order[k..]);
      assert multiset(order)[order[j]] <= 1;
    }
  }

  lemma {:induction false} FinishedHas(complete: seq<(nat, Subtest)>, i: nat) returns (k: nat)
    requires i in Finished(complete)
    ensures k < |complete| && complete[k].0 == i
    decreases |complete|
  {
    var n := |complete| - 1;
    if complete[n].0 == i {
      k := n;
    } else {
      k := FinishedHas(complete[..n], i);
    }
  }

  // ----- A run -----

  predicate InRange(s: Suite) {
    forall k :: 0 <= k < |s.runOrder| ==> s.runOrder[k] < |s.toRun|
  }

  /** The suite after the first `k` turns of the run loop. */
  function Ran(s: Suite, k: nat): (t: Suite)
    requires InRange(s) && k <= |s.runOrder|
    ensures |t.toRun| == |s.toRun| && t.runOrder == s.runOrder
  {
    if k == 0 then s
    else
      var t := Ran(s, k - 1);
      var i := s.runOrder[k - 1];
      if t.toRun[i].None? then t
      else t.(toRun := t.toRun[i := None], complete := t.complete + [(i, t.toRun[i].value)])
  }

  lemma TurnHolds(toRun: seq<Option<Subtest>>, complete: seq<(nat, Subtest)>, added: seq<Subtest>, i: nat)
    requires ToRunAsAdded(toRun, added) && ResultsAsAdded(complete, added) && OneResult(toRun, Finished(complete))
    requires i < |toRun| && toRun[i].Some?
    ensures var (toRun', complete') := (toRun[i := None], complete + [(i, toRun[i].value)]);
      && ToRunAsAdded(toRun', added) && ResultsAsAdded(complete', added) && OneResult(toRun', Finished(complete'))
  {
    var complete' := complete + [(i, toRun[i].value)];
    assert complete'[..|complete|] == complete;
    assert Finished(complete') == Finished(complete) + multiset{i};
  }

  lemma {:induction false} RanHolds(s: Suite, added: seq<Subtest>, k: nat)
    requires Holds(s, added) && InRange(s) && k <= |s.runOrder|
    ensures Holds(Ran(s, k), added) && InRange(Ran(s, k))
  {
    hide IsOrder, ToRunAsAdded, ResultsAsAdded, OneResult, Finished;
    if k > 0 {
      RanHolds(s, added, k - 1);
      var t := Ran(s, k - 1);
      var i := s.runOrder[k - 1];
      assert i < |t.toRun|;
      if t.toRun[i].Some? {
        TurnHolds(t.toRun, t.complete, added, i);
      }
    }
  }

  /** The subtests among the first `k` of the order that were to run, in that order. */
  function Due(s: Suite, k: nat): seq<(nat, Subtest)>
    requires InRange(s) && k <= |s.runOrder|
  {
    if k == 0 then []
    else
      var i := s.runOrder[k - 1];
      Due(s, k - 1) + if s.toRun[i].Some? then [(i, s.toRun[i].value)] else []
  }

  lemma OrderGrows(order: seq<nat>, k: nat)
    requires 0 < k <= |order| && Distinct(order)
    ensures order[k - 1] !in order[..k - 1]
    ensures forall i: nat :: i in order[..k] <==> i == order[k - 1] || i in order[..k - 1]
  {
    assert order[..k] == order[..k - 1] + [order[k - 1]];
  }

  /** What a run of `k` turns does: it completes, in run order, the subtests that were to run among
    * them, and touches no other. */
  lemma {:induction false} RunCompletesDue(s: Suite, k: nat)
    requires InRange(s) && k <= |s.runOrder| && Distinct(s.runOrder)
    ensures Ran(s, k).complete == s.complete + Due(s, k)
    ensures forall i: nat :: i < |s.toRun| ==> Ran(s, k).toRun[i] == if i in s.runOrder[..k] then None else s.toRun[i]
  {
    if k > 0 {
      RunCompletesDue(s, k - 1);
      var i := s.runOrder[k - 1];
      OrderGrows(s.runOrder, k);
      assert Ran(s, k - 1).toRun[i] == s.toRun[i];
    }
  }

  /** The subtests due are those of the turns that find one to run, turn by turn. */
  lemma {:induction false} DueByTurns(s: Suite, k: nat) returns (turns: seq<nat>)
    requires InRange(s) && k <= |s.runOrder|
    ensures |turns| == |Due(s, k)|
    ensures forall a :: 0 <= a < |turns| ==>
      && turns[a] < k && IsDue(s, turns[a]) && Due(s, k)[a].0 == s.runOrder[turns[a]]
      && s.toRun[s.runOrder[turns[a]]] == Some(Due(s, k)[a].1)
    ensures forall a, b :: 0 <= a < b < |turns| ==> turns[a] < turns[b]
    ensures forall p: nat :: p < k && IsDue(s, p) ==> p in turns
  {
    turns := [];
    if k > 0 {
      turns := DueByTurns(s, k - 1);
      if IsDue(s, k - 1) {
        turns := turns + [k - 1];
      }
    }
  }

  predicate IsDue(s: Suite, p: nat)
    requires InRange(s)
  {
    p < |s.runOrder| && s.toRun[s.runOrder[p]].Some?
  }

  /** A run that is not halted ends with every subtest complete exactly once. */
  lemma UnhaltedCompletesAll(s: Suite, added: seq<Subtest>)
    requires Holds(s, added) && InRange(s)
    ensures var t := Ran(s, |s.runOrder|);
      && (forall i: nat :: i < |added| ==> t.toRun[i].None? && Finished(t.complete)[i] == 1)
      && forall k :: 0 <= k < |t.complete| ==> t.complete[k].0 < |added| && t.complete[k].1 == added[t.complete[k].0]
  {
    OrderInRange(s.runOrder, |added|);
    RunCompletesDue(s, |s.runOrder|);
    RanHolds(s, added, |s.runOrder|);
    assert s.runOrder[..|s.runOrder|] == s.runOrder;
  }

  /** What has run stays run: the turns already taken are idle when the run starts again. */
  lemma {:induction false} IdleTurns(s: Suite, k: nat, j: nat)
    requires InRange(s) && j <= k <= |s.runOrder|
    ensures forall l :: 0 <= l < k ==> Ran(s, k).toRun[s.runOrder[l]].None?
    ensures Ran(Ran(s, k), j) == Ran(s, k)
    decreases k + j
  {
    if k > 0 {
      IdleTurns(s, k - 1, 0);
    }
    if j > 0 {
      IdleTurns(s, k, j - 1);
    }
  }

  /** Halting after `k` turns and resuming is the same as not halting. */
  lemma {:induction false} HaltedThenResumed(s: Suite, k: nat, j: nat)
    requires InRange(s) && k <= j <= |s.runOrder|
    ensures Ran(Ran(s, k), j) == Ran(s, j)
  {
    IdleTurns(s, k, k);
    if j > k {
      HaltedThenResumed(s, k, j - 1);
    }
  }

  /** Runs halted, one after the other, after `stops[0]`, `stops[1]`, ... turns. */
  function Halted(s: Suite, stops: seq<nat>): (t: Suite)
    requires InRange(s) && forall k :: 0 <= k < |stops| ==> stops[k] <= |s.runOrder|
    ensures |t.toRun| == |s.toRun| && t.runOrder == s.runOrder
    decreases |stops|
  {
    if stops == [] then s else Halted(Ran(s, stops[0]), stops[1..])
  }

  /** However often it was halted, the run that completes leaves the same results in the same
    * order as one that never was. */
  lemma {:induction false} HaltsDoNotShow(s: Suite, stops: seq<nat>)
    requires InRange(s) && forall k :: 0 <= k < |stops| ==> stops[k] <= |s.runOrder|
    ensures Ran(Halted(s, stops), |s.runOrder|) == Ran(s, |s.runOrder|)
    decreases |stops|
  {
    if stops != [] {
      HaltsDoNotShow(Ran(s, stops[0]), stops[1..]);
      HaltedThenResumed(s, stops[0], |s.runOrder|);
    }
  }

  // ----- Everything a user can do -----

  datatype Op =
    | Add(subtest: Subtest)
    | Reorder(useOriginal: bool, shuffled: Option<seq<nat>>)
    | RunAgain(resume: bool, stopAt: nat)

  function Upto(n: nat): seq<nat> { seq(n, i requires 0 <= i => i) }

  lemma {:induction false} UptoIsOrder(n: nat)
    ensures IsOrder(Upto(n), n)
  {
    if n > 0 {
      UptoIsOrder(n - 1);
      assert Upto(n) == Upto(n - 1) + [n - 1];
    }
  }

  function Original(s: Suite, useOriginal: bool): seq<nat> {
    if useOriginal then Upto(|s.toRun|) else s.runOrder
  }

  /** A shuffle may give any rearrangement. */
  ghost predicate CanDo(s: Suite, op: Op) {
    op.Reorder? && op.shuffled.Some? ==> multiset(op.shuffled.value) == multiset(Original(s, op.useOriginal))
  }

  function Restored(s: Suite, k: nat): (t: Suite)
    requires k <= |s.complete|
    ensures |t.toRun| == |s.toRun| && t.runOrder == s.runOrder && t.complete == s.complete
  {
    if k == 0 then s
    else
      var t := Restored(s, k - 1);
      var (i, subtest) := s.complete[k - 1];
      if i < |t.toRun| then t.(toRun := t.toRun[i := Some(subtest)]) else t
  }

  function Do(s: Suite, op: Op): Suite
    requires InRange(s)
  {
    match op
    case Add(subtest) => s.(runOrder := s.runOrder + [|s.toRun|], toRun := s.toRun + [Some(subtest)])
    case Reorder(useOriginal, shuffled) =>
      s.(runOrder := if shuffled.Some? then shuffled.value else Original(s, useOriginal))
    case RunAgain(resume, stopAt) =>
      var start := if resume then s else Restored(s, |s.complete|).(complete := []);
      Ran(start, if stopAt <= |s.runOrder| then stopAt else |s.runOrder|)
  }

  /** Starting over puts every subtest back as the class it was added as. */
  lemma {:induction false} RestoredAll(s: Suite, added: seq<Subtest>, k: nat)
    requires Holds(s, added) && k <= |s.complete|
    ensures forall i: nat :: i < |added| ==>
      Restored(s, k).toRun[i] == if exists j :: 0 <= j < k && s.complete[j].0 == i then Some(added[i]) else s.toRun[i]
  {
    if k > 0 {
      RestoredAll(s, added, k - 1);
      var t := Restored(s, k - 1);
      forall i: nat | i < |added|
        ensures Restored(s, k).toRun[i] == if exists j :: 0 <= j < k && s.complete[j].0 == i then Some(added[i]) else s.toRun[i]
      {
        if i == s.complete[k - 1].0 {
          assert Restored(s, k).toRun[i] == Some(added[i]);
        } else {
          assert Restored(s, k).toRun[i] == t.toRun[i];
          assert (exists j :: 0 <= j < k && s.complete[j].0 == i) ==> exists j :: 0 <= j < k - 1 && s.complete[j].0 == i;
        }
      }
    }
  }

  lemma StartingOver(s: Suite, added: seq<Subtest>)
    requires Holds(s, added)
    ensures var t := Restored(s, |s.complete|).(complete := []);
      && Holds(t, added)
      && forall i: nat :: i < |added| ==> t.toRun[i] == Some(added[i])
  {
    RestoredAll(s, added, |s.complete|);
    var t := Restored(s, |s.complete|).(complete := []);
    forall i: nat | i < |added| ensures t.toRun[i] == Some(added[i]) {
      if i in Finished(s.complete) {
        var k := FinishedHas(s.complete, i);
      }
    }
  }

  function AddedBy(added: seq<Subtest>, op: Op): seq<Subtest> {
    if op.Add? then added + [op.subtest] else added
  }

  lemma AddKeepsHolds(s: Suite, added: seq<Subtest>, subtest: Subtest)
    requires Holds(s, added) && InRange(s)
    ensures Holds(Do(s, Add(subtest)), added + [subtest])
  {
    var n := |added|;
    assert multiset(s.runOrder + [n]) == multiset(s.runOrder) + multiset{n};
    assert IsOrder(s.runOrder + [n], n + 1);
  }

  lemma OpKeepsHolds(s: Suite, added: seq<Subtest>, op: Op)
    requires Holds(s, added) && InRange(s) && CanDo(s, op)
    ensures Holds(Do(s, op), AddedBy(added, op)) && InRange(Do(s, op))
  {
    match op
    case Add(subtest) =>
      AddKeepsHolds(s, added, subtest);
      OrderInRange(Do(s, op).runOrder, |added| + 1);
    case Reorder(useOriginal, shuffled) =>
      UptoIsOrder(|added|);
      SameBag(Original(s, useOriginal), Do(s, op).runOrder);
      OrderInRange(Do(s, op).runOrder, |added|);
    case RunAgain(resume, stopAt) =>
      var start := if resume then s else Restored(s, |s.complete|).(complete := []);
      if !resume {
        StartingOver(s, added);
      }
      RanHolds(start, added, if stopAt <= |s.runOrder| then stopAt else |s.runOrder|);
  }

  /** A run after the first: the subtests of the turns taken are complete, the others as they were, or
    * as they were added if it starts over. */
  lemma RunAgainCompletes(s: Suite, added: seq<Subtest>, resume: bool, stopAt: nat, i: nat)
    requires Holds(s, added) && InRange(s) && i < |added| && stopAt <= |s.runOrder|
    ensures var t := Do(s, RunAgain(resume, stopAt));
      && (i in s.runOrder[..stopAt] ==> t.toRun[i] == None)
      && (i !in s.runOrder[..stopAt] ==> t.toRun[i] == if resume then s.toRun[i] else Some(added[i]))
      && (resume ==> s.complete <= t.complete)
  {
    var start := if resume then s else Restored(s, |s.complete|).(complete := []);
    if !resume {
      StartingOver(s, added);
    }
    OrderInRange(s.runOrder, |added|);
    RunCompletesDue(start, stopAt);
  }

  lemma SameBag(a: seq<nat>, b: seq<nat>)
    requires multiset(a) == multiset(b)
    ensures |a| == |b|
  {
    assert |multiset(a)| == |a| && |multiset(b)| == |b|;
  }

  ghost predicate CanDoAll(s: Suite, ops: seq<Op>)
    requires InRange(s)
    decreases |ops|
  {
    ops == [] || (CanDo(s, ops[0]) && InRange(Do(s, ops[0])) && CanDoAll(Do(s, ops[0]), ops[1..]))
  }

  function DoAll(s: Suite, ops: seq<Op>): Suite
    requires InRange(s) && CanDoAll(s, ops)
    decreases |ops|
  {
    if ops == [] then s else DoAll(Do(s, ops[0]), ops[1..])
  }

  function AddedByAll(added: seq<Subtest>, ops: seq<Op>): seq<Subtest>
    decreases |ops|
  {
    if ops == [] then added else AddedByAll(AddedBy(added, ops[0]), ops[1..])
  }

  /** Whatever was added, reordered, run, halted, resumed and started over. */
  lemma {:induction false} OpsKeepHolds(s: Suite, added: seq<Subtest>, ops: seq<Op>)
    requires Holds(s, added) && InRange(s) && CanDoAll(s, ops)
    ensures Holds(DoAll(s, ops), AddedByAll(added, ops)) && InRange(DoAll(s, ops))
    decreases |ops|
  {
    if ops != [] {
      OpKeepsHolds(s, added, ops[0]);
      OpsKeepHolds(Do(s, ops[0]), AddedBy(added, ops[0]), ops[1..]);
    }
  }

  // ----- The suite -----

  class TestSuite {
    var inactive: bool
    var haltIter: bool
    var toRun: seq<Option<Subtest>>
    var complete: seq<(nat, Subtest)>
    var runOrder: seq<nat>
    ghost var added: seq<Subtest>

    ghost function Value(): Suite reads this { Suite(toRun, complete, runOrder) }

    ghost predicate Valid()
      reads this
    {
      Holds(Value(), added) && InRange(Value())
    }

    constructor ()
      ensures Valid() && inactive && Value() == Suite([], [], []) && added == []
    {
      inactive, haltIter := true, false;
      toRun, complete, runOrder, added := [], [], [], [];
    }

    /** Refused while a run is active. */
    method AddSubtest(subtest: Subtest) returns (called: bool)
      requires Valid()
      modifies this`toRun, this`runOrder, this`added
      ensures Valid() && called == inactive
      ensures added == if called then old(added) + [subtest] else old(added)
      ensures called ==> toRun == old(toRun) + [Some(subtest)] && runOrder == old(runOrder) + [|old(toRun)|]
      ensures Value() == if called then Do(old(Value()), Add(subtest)) else old(Value())
    {
      if !inactive {
        return false;
      }
      OpKeepsHolds(Value(), added, Add(subtest));
      runOrder := runOrder + [|toRun|];
      toRun := toRun + [Some(subtest)];
      added := added + [subtest];
      return true;
    }

    method SpecifyRunOrder(useOriginal: bool, shuffled: Option<seq<nat>>) returns (called: bool)
      requires Valid() && CanDo(Value(), Reorder(useOriginal, shuffled))
      modifies this`runOrder
      ensures Valid() && called == inactive
      ensures Value() == if called then Do(old(Value()), Reorder(useOriginal, shuffled)) else old(Value())
      ensures called && shuffled.Some? ==> runOrder == shuffled.value
      ensures called && shuffled.None? && useOriginal ==>
        |runOrder| == |toRun| && forall i :: 0 <= i < |runOrder| ==> runOrder[i] == i
      ensures called && shuffled.None? && !useOriginal ==> runOrder == old(runOrder)
    {
      if !inactive {
        return false;
      }
      OpKeepsHolds(Value(), added, Reorder(useOriginal, shuffled));
      if useOriginal {
        runOrder := Upto(|toRun|);
      }
      if shuffled.Some? {
        runOrder := shuffled.value;
      }
      return true;
    }

    /** The loop of `start` that puts the classes of the results back. */
    method Restore()
      requires ResultsAsAdded(complete, added) && |toRun| == |added|
      modifies this`toRun, this`complete
      ensures Value() == Restored(old(Value()), |old(complete)|).(complete := [])
    {
      ghost var s := Value();
      for k := 0 to |complete|
        invariant complete == s.complete && |toRun| == |added|
        invariant Value() == Restored(s, k)
      {
        assert complete[k].0 < |added|;
        toRun := toRun[complete[k].0 := Some(complete[k].1)];
      }
      complete := [];
    }

    method Start(resume: bool) returns (started: bool)
      requires Valid()
      modifies this`inactive, this`haltIter, this`toRun, this`complete
      ensures Valid() && started == old(inactive) && !inactive
      ensures !started ==> Value() == old(Value()) && haltIter == old(haltIter)
      ensures started ==> !haltIter
      ensures started && resume ==> Value() == old(Value())
      ensures started && !resume ==> complete == [] && runOrder == old(runOrder)
      ensures started && !resume ==> |toRun| == |added| && forall i: nat :: i < |added| ==> toRun[i] == Some(added[i])
    {
      if !inactive {
        return false;
      }
      inactive := false;
      haltIter := false;
      if !resume {
        StartingOver(Value(), added);
        Restore();
      }
      return true;
    }

    method Stop()
      modifies this`haltIter
      ensures haltIter
    {
      haltIter := true;
    }

    method RunLoop(stopAt: nat)
      requires InRange(Value())
      modifies this`haltIter, this`toRun, this`complete
      ensures Value() == Ran(old(Value()),
        if old(haltIter) then 0 else if stopAt <= |runOrder| then stopAt else |runOrder|)
    {
      ghost var s := Value();
      var k := 0;
      while k < |runOrder|
        invariant k <= |runOrder| && InRange(s)
        invariant (haltIter ==> k == 0) && k <= stopAt && haltIter == old(haltIter)
        invariant Value() == Ran(s, k)
      {
        if k == stopAt {
          haltIter := true;
        }
        if haltIter {
          break;
        }
        var index := runOrder[k];
        if toRun[index].Some? {
          complete := complete + [(index, toRun[index].value)];
          toRun := toRun[index := None];
        }
        k := k + 1;
      }
    }

    /** The run thread. Another thread's stop may land before any turn, here before turn `stopAt`. */
    method Run(stopAt: nat)
      requires Valid() && !inactive
      modifies this`inactive, this`haltIter, this`toRun, this`complete
      ensures Valid() && inactive
      ensures Value() == Ran(old(Value()),
        if old(haltIter) then 0 else if stopAt <= |runOrder| then stopAt else |runOrder|)
    {
      hide Holds, InRange, Ran;
      RanHolds(Value(), added, if haltIter then 0 else if stopAt <= |runOrder| then stopAt else |runOrder|);
      RunLoop(stopAt);
      inactive := true;
    }
  }
}
