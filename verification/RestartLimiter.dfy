/** The drive state monitor restarts a worker whenever its task ends, and gives up when the last five
  * starts lie within a day.
  */
module RestartLimiter {
  import opened Options

  const TIMEOUT: real := 86400.0
  const COUNT: nat := 5

  /** The starts `i` .. `i + COUNT - 1` came too quickly. */
  predicate TooQuick(card: seq<real>, i: nat)
    requires i + COUNT <= |card|
  {
    card[i + COUNT - 1] - card[i] <= TIMEOUT
  }

  /** No five consecutive starts within the timeout. */
  ghost predicate Spaced(card: seq<real>) {
    forall i: nat :: i + COUNT <= |card| ==> !TooQuick(card, i)
  }

  /** What the turns of the loop start: nothing when the task still lives or its thread cannot be
    * started. */
  function Starts(turns: seq<Option<real>>): seq<real> {
    if turns == [] then []
    else
      var front := Starts(turns[..|turns| - 1]);
      if turns[|turns| - 1].Some? then front + [turns[|turns| - 1].value] else front
  }

  function StartsBefore(turns: seq<Option<real>>, k: nat): set<nat> {
    set i: nat | i < k && i < |turns| && turns[i].Some?
  }

  /** The starts are those of the turns that start something, in order. */
  lemma {:induction false} StartsInOrder(turns: seq<Option<real>>, i: nat)
    ensures |Starts(turns)| == |StartsBefore(turns, |turns|)|
    ensures i < |turns| && turns[i].Some? ==>
      var k := |StartsBefore(turns, i)|; k < |Starts(turns)| && Starts(turns)[k] == turns[i].value
    decreases |turns|
  {
    if turns == [] {
      assert StartsBefore(turns, 0) == {};
    } else {
      var n := |turns| - 1;
      StartsInOrder(turns[..n], i);
      assert StartsBefore(turns[..n], n) == StartsBefore(turns, n);
      OneMoreSize(StartsBefore(turns, n), StartsBefore(turns, n + 1), n, turns[n].Some?);
      if i < n {
        assert StartsBefore(turns[..n], i) == StartsBefore(turns, i);
      }
    }
  }

  class Manager {
    var timeCard: seq<real>
    var killSwitch: bool

    constructor ()
      ensures timeCard == [] && !killSwitch
    {
      timeCard, killSwitch := [], false;
    }

    /** Runs until it gives up, or until `turns`, what its turns meet, ends; `used` turns were taken.
      * It gives up at the first start that comes too quickly, and then only. */
    method Manage(turns: seq<Option<real>>) returns (giveUp: bool, used: nat)
      requires timeCard == []
      modifies this
      ensures used <= |turns| && timeCard == Starts(turns[..used])
      ensures giveUp == !Spaced(timeCard) && (giveUp || used == |turns|)
      ensures giveUp ==> |timeCard| >= COUNT && TooQuick(timeCard, |timeCard| - COUNT) && Spaced(timeCard[..|timeCard| - 1])
      ensures killSwitch == (old(killSwitch) || giveUp)
      ensures forall a: real :: |Window(timeCard, a)| <= if giveUp then 5 else 4
    {
      giveUp, used := false, 0;
      while !giveUp && used < |turns|
        invariant used <= |turns| && timeCard == Starts(turns[..used]) && killSwitch == old(killSwitch)
        invariant giveUp == !Spaced(timeCard)
        invariant giveUp ==> |timeCard| >= COUNT && TooQuick(timeCard, |timeCard| - COUNT) && Spaced(timeCard[..|timeCard| - 1])
      {
        ghost var before := timeCard;
        if turns[used].Some? {
          timeCard := timeCard + [turns[used].value];
          assert timeCard[..|timeCard| - 1] == before;
        }
        assert turns[..used + 1][..used] == turns[..used];
        used := used + 1;
        SpacedGrows(before, timeCard);
        if |timeCard| >= COUNT {
          if timeCard[|timeCard| - 1] - timeCard[|timeCard| - COUNT] <= TIMEOUT {
            giveUp := true;
          }
        }
      }
      if giveUp {
        killSwitch := true;
      }
      forall a: real ensures |Window(timeCard, a)| <= if giveUp then COUNT else COUNT - 1 {
        if giveUp { FiveAtMost(timeCard, a); } else { FourWhileSpaced(timeCard, a); }
      }
    }
  }

  lemma SpacedGrows(before: seq<real>, card: seq<real>)
    requires Spaced(before) && (card == before || (|card| == |before| + 1 && card[..|before|] == before))
    ensures Spaced(card) <==> |card| < COUNT || !TooQuick(card, |card| - COUNT)
  {
    assert forall i: nat :: i < |before| ==> card[i] == before[i];
    if card != before && (|card| < COUNT || !TooQuick(card, |card| - COUNT)) {
      forall i: nat | i + COUNT <= |card| ensures !TooQuick(card, i) {
        if i + COUNT <= |before| {
          assert !TooQuick(before, i);
        }
      }
    }
  }

  // ----- How often a worker can start -----

  /** The starts in the window of the timeout's length that begins at `a`. */
  ghost function Window(card: seq<real>, a: real): set<nat> {
    set i: nat | i < |card| && a <= card[i] <= a + 86400.0
  }

  /** Starts four apart drift away from one another. */
  lemma {:induction false} Drift(card: seq<real>, i: nat, j: nat)
    requires Spaced(card) && i < j < |card| && i % (COUNT - 1) == j % (COUNT - 1)
    ensures card[j] - card[i] > TIMEOUT
    decreases j
  {
    var before := j - (COUNT - 1);
    assert before >= i;
    assert !TooQuick(card, before);
    if before > i {
      Drift(card, i, before);
    }
  }

  ghost function Class(card: seq<real>, a: real, r: nat): set<nat> {
    set i <- Window(card, a) | i % (COUNT - 1) == r
  }

  lemma ClassIsSmall(card: seq<real>, a: real, r: nat)
    requires Spaced(card)
    ensures |Class(card, a, r)| <= 1
  {
    var c := Class(card, a, r);
    if i :| i in c {
      forall j | j in c ensures j == i {
        if i < j { Drift(card, i, j); } else if j < i { Drift(card, j, i); }
      }
      assert c == {i};
    }
  }

  /** A manager that has not given up saw at most four starts in any window, even if the clock was
    * set back. */
  lemma FourWhileSpaced(card: seq<real>, a: real)
    requires Spaced(card)
    ensures |Window(card, a)| <= COUNT - 1
  {
    ClassIsSmall(card, a, 0);
    ClassIsSmall(card, a, 1);
    ClassIsSmall(card, a, 2);
    ClassIsSmall(card, a, 3);
    forall i | i in Window(card, a)
      ensures i in Class(card, a, 0) || i in Class(card, a, 1) || i in Class(card, a, 2) || i in Class(card, a, 3)
    {
    }
    FourParts(Window(card, a), Class(card, a, 0), Class(card, a, 1), Class(card, a, 2), Class(card, a, 3));
  }

  lemma FourParts(w: set<nat>, a: set<nat>, b: set<nat>, c: set<nat>, d: set<nat>)
    requires forall i <- w :: i in a || i in b || i in c || i in d
    requires |a| <= 1 && |b| <= 1 && |c| <= 1 && |d| <= 1
    ensures |w| <= 4
  {
    var ab, cd := a + b, c + d;
    assert |ab| <= 2 && |cd| <= 2;
    SubsetSize(w, ab + cd);
  }

  /** Counting the start that made it give up, no window ever holds more than five. */
  lemma FiveAtMost(card: seq<real>, a: real)
    requires card != [] && Spaced(card[..|card| - 1])
    ensures |Window(card, a)| <= COUNT
  {
    var n := |card| - 1;
    FourWhileSpaced(card[..n], a);
    assert Window(card, a) <= Window(card[..n], a) + {n};
    SubsetSize(Window(card, a), Window(card[..n], a) + {n});
  }
}
