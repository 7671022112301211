/** The key generators for keys of many sizes: the search for a random size, and the sequential keys
  * in lexicographic order.
  */
module KeySizes {
  import opened Options
  import opened KeyGenerator

  // ----- Random keys of many sizes -----

  /** One, plus n, plus ... plus n to the k. */
  function Geometric(n: nat, k: nat): nat {
    if k == 0 then 1 else Geometric(n, k - 1) + Pow(n, k)
  }

  /** In closed form. */
  lemma {:induction false} GeometricSum(n: nat, k: nat)
    ensures n * Geometric(n, k) + 1 == Geometric(n, k) + Pow(n, k + 1)
    ensures Geometric(n, 0) == 1 && Pow(n, 0) == 1 && Pow(n, k + 1) == n * Pow(n, k)
  {
    assert Pow(n, k + 1) == n * Pow(n, k);
    if k > 0 {
      GeometricSum(n, k - 1);
      var (g, p) := (Geometric(n, k - 1), Pow(n, k));
      assert Geometric(n, k) == g + p;
      hide Geometric, Pow;
      Distribute(n, g, p);
    }
  }

  lemma Distribute(n: nat, g: nat, p: nat)
    ensures n * (g + p) == n * g + n * p
  {
  }

  /** The cumulative sums of the numbers of keys of each size. */
  method GenerateLexKeySum(n: nat) returns (sums: seq<nat>)
    ensures |sums| == 4000
    ensures forall k :: 0 <= k < 4000 ==> sums[k] == Geometric(n, k)
  {
    var weights: seq<nat> := [];
    var power := 1;
    for x := 0 to NUM_WEIGHTS
      invariant |weights| == x && power == Pow(n, x)
      invariant forall k :: 0 <= k < x ==> weights[k] == Pow(n, k)
    {
      weights := weights + [power];
      power := n * power;
    }
    var total := 0;
    sums := [];
    for x := 0 to NUM_WEIGHTS
      invariant |sums| == x
      invariant total == if x == 0 then 0 else Geometric(n, x - 1)
      invariant forall k :: 0 <= k < x ==> sums[k] == Geometric(n, k)
    {
      total := total + weights[x];
      sums := sums + [total];
    }
  }

  /** The size a random target stands for: the search from the greatest size down stops at the
    * first sum that does not exceed the target. */
  method PickSize(n: nat, sums: seq<nat>, minSize: nat, maxSize: nat, target: nat) returns (size: nat)
    requires minSize <= maxSize < |sums| && forall k :: 0 <= k < |sums| ==> sums[k] == Geometric(n, k)
    requires sums[minSize] <= target <= sums[maxSize]
    ensures size == SizeOf(n, minSize, maxSize, target)
    ensures minSize + 1 <= size <= maxSize + 1
    ensures Geometric(n, size - 1) <= target
    ensures forall k :: size <= k <= maxSize ==> target < Geometric(n, k)
  {
    var index := maxSize;
    while target < sums[index]
      invariant minSize <= index <= maxSize
      invariant forall k :: index < k <= maxSize ==> target < sums[k]
      invariant SizeOf(n, minSize, maxSize, target) == SizeOf(n, minSize, index, target)
      decreases index
    {
      index := index - 1;
    }
    return index + 1;
  }

  function SizeOf(n: nat, minSize: nat, maxSize: nat, target: nat): nat {
    if maxSize <= minSize || target >= Geometric(n, maxSize) then maxSize + 1
    else SizeOf(n, minSize, maxSize - 1, target)
  }

  lemma {:induction false} GeometricGrows(n: nat, j: nat, k: nat)
    requires n > 0 && j < k
    ensures Geometric(n, j) < Geometric(n, k)
    decreases k
  {
    PowPositive(n, k);
    if j < k - 1 {
      GeometricGrows(n, j, k - 1);
    }
  }

  /** Which targets stand for which size. */
  lemma {:induction false} SizeOfIff(n: nat, minSize: nat, maxSize: nat, target: nat, size: nat)
    requires n > 0 && minSize <= maxSize && Geometric(n, minSize) <= target <= Geometric(n, maxSize)
    ensures SizeOf(n, minSize, maxSize, target) == size <==>
      || (minSize < size <= maxSize && Geometric(n, size - 1) <= target < Geometric(n, size))
      || (size == maxSize + 1 && target == Geometric(n, maxSize))
    decreases maxSize
  {
    if target < Geometric(n, maxSize) {
      SizeBelow(n, minSize, maxSize, target);
      var found := SizeOf(n, minSize, maxSize, target);
      if minSize < size <= maxSize && Geometric(n, size - 1) <= target < Geometric(n, size) {
        if size < found {
          if size < found - 1 {
            GeometricGrows(n, size, found - 1);
          }
        } else if found < size {
          if found < size - 1 {
            GeometricGrows(n, found, size - 1);
          }
        }
      }
    } else {
      forall k | minSize < k <= maxSize
        ensures Geometric(n, k) <= target
      {
        if k < maxSize {
          GeometricGrows(n, k, maxSize);
        }
      }
    }
  }

  lemma {:induction false} SizeBelow(n: nat, minSize: nat, maxSize: nat, target: nat)
    requires minSize < maxSize && Geometric(n, minSize) <= target < Geometric(n, maxSize)
    ensures var size := SizeOf(n, minSize, maxSize, target);
      minSize < size <= maxSize && Geometric(n, size - 1) <= target < Geometric(n, size)
    decreases maxSize
  {
    if maxSize - 1 > minSize && target < Geometric(n, maxSize - 1) {
      SizeBelow(n, minSize, maxSize - 1, target);
    }
  }

  /** The targets drawn that stand for one size. */
  function Targets(n: nat, minSize: nat, maxSize: nat, size: nat): set<int> {
    set t: int | Geometric(n, minSize) <= t <= Geometric(n, maxSize) && t >= 0 && SizeOf(n, minSize, maxSize, t) == size
  }

  function Interval(low: int, high: int): (r: set<int>)
    ensures forall t :: t in r <==> low <= t < high
    ensures |r| == if low <= high then high - low else 0
    decreases high - low
  {
    if high <= low then {} else Interval(low, high - 1) + {high - 1}
  }

  /** Every key of a size above the least one is equally likely: as many targets stand for the size
    * as it has keys. But no target stands for the least size, and one stands for a size above the
    * greatest. */
  lemma TargetsPerSize(n: nat, minSize: nat, maxSize: nat, size: nat)
    requires n > 0 && minSize <= maxSize
    ensures |Targets(n, minSize, maxSize, size)| ==
      if minSize < size <= maxSize then Pow(n, size) else if size == maxSize + 1 then 1 else 0
  {
    var (low, high) :=
      if minSize < size <= maxSize then (Geometric(n, size - 1), Geometric(n, size))
      else if size == maxSize + 1 then (Geometric(n, maxSize), Geometric(n, maxSize) + 1)
      else (0, 0);
    Nested(n, minSize, maxSize, size);
    forall t: int
      ensures t in Targets(n, minSize, maxSize, size) <==> t in Interval(low, high)
    {
      if Geometric(n, minSize) <= t <= Geometric(n, maxSize) {
        SizeOfIff(n, minSize, maxSize, t, size);
      }
    }
    assert Targets(n, minSize, maxSize, size) == Interval(low, high);
  }

  lemma Nested(n: nat, minSize: nat, maxSize: nat, size: nat)
    requires n > 0 && minSize <= maxSize
    ensures minSize < size <= maxSize ==> Geometric(n, minSize) <= Geometric(n, size - 1) && Geometric(n, size) <= Geometric(n, maxSize)
    ensures Geometric(n, minSize) <= Geometric(n, maxSize)
  {
    if minSize < maxSize {
      GeometricGrows(n, minSize, maxSize);
    }
    if minSize < size - 1 {
      GeometricGrows(n, minSize, size - 1);
    }
    if size < maxSize {
      GeometricGrows(n, size, maxSize);
    }
  }

  // ----- The sequential generator of keys of many sizes -----

  datatype Sizes = Sizes(minSize: nat, maxSize: nat)

  /** A key that comes straight after another one in lexicographic order, among the keys up to a
    * greatest size. */
  ghost predicate Follows(a: Alphabet, maxSize: nat, key: Key, next: Key) {
    && Less(key, next) && a.Spells(next) && |next| <= maxSize
    && forall other: Key | a.Spells(other) && |other| <= maxSize :: !(Less(key, other) && Less(other, next))
  }

  class LexicographicKeyGenerator {
    const alphabet: Alphabet
    const sizes: Sizes
    const startKey: Key
    const ignoreOutOfKeys: bool
    var currentKey: Key

    ghost predicate Valid()
      reads this
    {
      && alphabet.Valid() && sizes.minSize <= sizes.maxSize && 0 < sizes.maxSize
      && alphabet.Spells(startKey) && |startKey| <= sizes.maxSize
      && alphabet.Spells(currentKey) && |currentKey| <= sizes.maxSize + 1
    }

    /** With the default start key, the least tokens in the least size. */
    constructor (alphabet: Alphabet, sizes: Sizes, ignoreOutOfKeys: bool)
      requires alphabet.Valid() && sizes.minSize <= sizes.maxSize && 0 < sizes.maxSize
      ensures Valid() && startKey == Repeat(alphabet.min, sizes.minSize) && currentKey == startKey
      ensures this.alphabet == alphabet && this.sizes == sizes && this.ignoreOutOfKeys == ignoreOutOfKeys
    {
      this.alphabet, this.sizes, this.ignoreOutOfKeys := alphabet, sizes, ignoreOutOfKeys;
      startKey := Repeat(alphabet.min, sizes.minSize);
      currentKey := Repeat(alphabet.min, sizes.minSize);
    }

    /** The promise is the next key in lexicographic order. It is kept exactly until a key of full
      * size ends in the greatest token: then, instead of counting up the token before it, the code
      * starts again from the start key, or raises if all keys have one size. A key one token too
      * long, as the random half can leave it, is counted up among keys of that size. */
    method GenerateSequentialKey() returns (ok: bool)
      requires Valid() && startKey == Repeat(alphabet.min, sizes.minSize)
      modifies this`currentKey
      ensures Valid()
      ensures ok && Follows(alphabet, sizes.maxSize, old(currentKey), currentKey)
        <==> (|old(currentKey)| < sizes.maxSize
              || (|old(currentKey)| == sizes.maxSize && old(currentKey)[sizes.maxSize - 1] != alphabet.max))
      ensures |old(currentKey)| > sizes.maxSize ==> ok
      ensures |old(currentKey)| > sizes.maxSize ==>
        if old(currentKey)[sizes.maxSize] == alphabet.max then currentKey == startKey
        else Follows(alphabet, sizes.maxSize + 1, old(currentKey), currentKey)
      ensures |old(currentKey)| == sizes.maxSize && old(currentKey)[sizes.maxSize - 1] == alphabet.max ==>
        if sizes.minSize == sizes.maxSize && !ignoreOutOfKeys then !ok && currentKey == old(currentKey)[..sizes.maxSize - 1]
        else ok && currentKey == startKey
    {
      hide Follows;
      if |currentKey| < sizes.maxSize {
        LongerFollows(alphabet, sizes.maxSize, currentKey);
        currentKey := currentKey + [alphabet.min];
        return true;
      }
      var last := |currentKey| - 1;
      if currentKey[last] == alphabet.max {
        RestartNeverFollows(alphabet, sizes, currentKey);
        currentKey := currentKey[..last];
        if |currentKey| < sizes.minSize && !ignoreOutOfKeys {
          return false;
        }
        currentKey := startKey;
        return true;
      }
      CountedFollows(alphabet, |currentKey|, currentKey);
      TooLongNeverFollows(alphabet, sizes.maxSize, currentKey, currentKey[..last] + [currentKey[last] + 1]);
      currentKey := currentKey[..last] + [(currentKey[last] + 1) % 256];
      return true;
    }
  }

  lemma RestartNeverFollows(a: Alphabet, sizes: Sizes, key: Key)
    requires a.Spells(key) && sizes.minSize <= |key|
    ensures !Follows(a, sizes.maxSize, key, Repeat(a.min, sizes.minSize))
  {
    StartNeverFollows(a, sizes.minSize, key);
  }

  lemma TooLongNeverFollows(a: Alphabet, maxSize: nat, key: Key, next: Key)
    ensures |next| > maxSize ==> !Follows(a, maxSize, key, next)
  {
  }

  lemma LongerFollows(a: Alphabet, maxSize: nat, key: Key)
    requires a.Valid() && a.Spells(key) && |key| < maxSize
    ensures Follows(a, maxSize, key, key + [a.min])
  {
    PrefixLess(key, [a.min]);
    forall other: Key | a.Spells(other) && |other| <= maxSize
      ensures !(Less(key, other) && Less(other, key + [a.min]))
    {
      NothingBeforeLonger(a, key, other);
    }
  }

  lemma {:induction false} PrefixLess(key: Key, more: Key)
    requires more != []
    ensures Less(key, key + more)
  {
    if key != [] {
      assert (key + more)[1..] == key[1..] + more;
      PrefixLess(key[1..], more);
    }
  }

  lemma {:induction false} NothingBeforeLonger(a: Alphabet, key: Key, other: Key)
    requires a.Spells(other)
    ensures !(Less(key, other) && Less(other, key + [a.min]))
  {
    if key != [] && other != [] {
      assert (key + [a.min])[1..] == key[1..] + [a.min];
      NothingBeforeLonger(a, key[1..], other[1..]);
    }
  }

  lemma CountedFollows(a: Alphabet, maxSize: nat, key: Key)
    requires a.Valid() && a.Spells(key) && |key| == maxSize > 0 && key[maxSize - 1] < a.max
    ensures Follows(a, maxSize, key, key[..maxSize - 1] + [key[maxSize - 1] + 1])
  {
    var next := key[..maxSize - 1] + [key[maxSize - 1] + 1];
    LessByLast(key, next);
    forall other: Key | a.Spells(other) && |other| <= maxSize
      ensures !(Less(key, other) && Less(other, next))
    {
      NothingBeforeCounted(key, other);
    }
  }

  lemma {:induction false} NothingBeforeCounted(key: Key, other: Key)
    requires 0 < |key| && |other| <= |key| && key[|key| - 1] < 255
    ensures !(Less(key, other) && Less(other, key[..|key| - 1] + [key[|key| - 1] + 1]))
  {
    var next := key[..|key| - 1] + [key[|key| - 1] + 1];
    if |key| > 1 && other != [] {
      assert next[1..] == key[1..][..|key| - 2] + [key[|key| - 1] + 1];
      NothingBeforeCounted(key[1..], other[1..]);
    }
  }

  /** No key of at least this size comes before the key of least tokens. */
  lemma {:induction false} StartNeverFollows(a: Alphabet, size: nat, key: Key)
    requires a.Spells(key) && size <= |key|
    ensures !Less(key, Repeat(a.min, size))
  {
    if size > 0 {
      assert Repeat(a.min, size)[1..] == Repeat(a.min, size - 1);
      StartNeverFollows(a, size - 1, key[1..]);
    }
  }
}
