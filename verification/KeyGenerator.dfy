/** The key generators of the load tools. A key is a string of tokens between a least and a greatest
  * one; tokens are character codes.
  */
module KeyGenerator {
  import opened Options

  type Token = t: int | 0 <= t < 256

  type Key = seq<Token>

  const MASK_LENGTH := 1024 * 1024
  const NUM_WEIGHTS := 4000

  /** The tokens a generator uses. */
  datatype Alphabet = Alphabet(min: Token, max: Token) {
    predicate Valid() { min <= max }

    function Size(): nat
      requires Valid()
    {
      max - min + 1
    }

    predicate Spells(key: Key) { forall i :: 0 <= i < |key| ==> min <= key[i] <= max }
  }

  function Pow(n: nat, k: nat): nat { if k == 0 then 1 else n * Pow(n, k - 1) }

  lemma {:induction false} PowPositive(n: nat, k: nat)
    requires n > 0
    ensures Pow(n, k) > 0
  {
    if k > 0 {
      PowPositive(n, k - 1);
    }
  }

  /** A key read as a number in base n, most significant token first. */
  function Val(a: Alphabet, key: Key): nat
    requires a.Valid() && a.Spells(key)
  {
    if key == [] then 0 else Val(a, key[..|key| - 1]) * a.Size() + (key[|key| - 1] - a.min)
  }

  lemma {:induction false} ValBound(a: Alphabet, key: Key)
    requires a.Valid() && a.Spells(key)
    ensures Val(a, key) < Pow(a.Size(), |key|)
  {
    if key != [] {
      var front := key[..|key| - 1];
      ValBound(a, front);
      OneDigitMore(Val(a, front), key[|key| - 1] - a.min, Pow(a.Size(), |front|), a.Size());
    }
  }

  lemma OneDigitMore(v: nat, r: nat, p: nat, n: nat)
    requires v < p && r < n
    ensures v * n + r < n * p
  {
    Scale(v + 1, p, n);
  }

  lemma Scale(x: nat, y: nat, n: nat)
    requires x <= y
    ensures x * n <= y * n
  {
  }

  lemma Digits(x: nat, r: nat, y: nat, q: nat, n: nat)
    requires r < n && q < n
    ensures x * n + r == y * n + q <==> x == y && r == q
    ensures x * n + r < y * n + q <==> x < y || (x == y && r < q)
  {
    if x < y {
      Scale(x + 1, y, n);
    } else if y < x {
      Scale(y + 1, x, n);
    }
  }

  /** Lexicographic order, as strings are compared. */
  predicate Less(a: Key, b: Key) {
    b != [] && (a == [] || a[0] < b[0] || (a[0] == b[0] && Less(a[1..], b[1..])))
  }

  lemma {:induction false} LessByLast(a: Key, b: Key)
    requires |a| == |b| > 0
    ensures var n := |a| - 1; Less(a, b) <==> Less(a[..n], b[..n]) || (a[..n] == b[..n] && a[n] < b[n])
  {
    var n := |a| - 1;
    if n > 0 {
      LessByLast(a[1..], b[1..]);
      assert a[1..][..n - 1] == a[..n][1..] && b[1..][..n - 1] == b[..n][1..];
      assert a[..n] == [a[0]] + a[..n][1..] && b[..n] == [b[0]] + b[..n][1..];
    }
  }

  /** Keys of one size compare as their numbers do; in particular no two have the same number. */
  lemma {:induction false} OrderIsNumeric(a: Alphabet, k: Key, m: Key)
    requires a.Valid() && a.Spells(k) && a.Spells(m) && |k| == |m|
    ensures Less(k, m) <==> Val(a, k) < Val(a, m)
    ensures k == m <==> Val(a, k) == Val(a, m)
    decreases |k|
  {
    if k != [] {
      var n := |k| - 1;
      OrderIsNumeric(a, k[..n], m[..n]);
      LessByLast(k, m);
      Digits(Val(a, k[..n]), k[n] - a.min, Val(a, m[..n]), m[n] - a.min, a.Size());
      assert k == k[..n] + [k[n]] && m == m[..n] + [m[n]];
    }
  }

  // ----- The fixed-size sequential generator -----

  function Repeat(t: Token, k: nat): (r: Key)
    ensures |r| == k && forall i :: 0 <= i < k ==> r[i] == t
  {
    seq(k, _ => t)
  }

  predicate AllMax(a: Alphabet, key: Key) { forall i :: 0 <= i < |key| ==> key[i] == a.max }

  /** The next key of the same size, after the last one the first. */
  function Next(a: Alphabet, key: Key): (r: Key)
    requires a.Valid() && a.Spells(key)
    ensures |r| == |key| && a.Spells(r)
  {
    if key == [] then []
    else
      var n := |key| - 1;
      if key[n] < a.max then key[..n] + [key[n] + 1] else Next(a, key[..n]) + [a.min]
  }

  /** Splitting off the last token. */
  lemma ValSnoc(a: Alphabet, front: Key, last: Token)
    requires a.Valid() && a.Spells(front) && a.min <= last <= a.max
    ensures a.Spells(front + [last])
    ensures Val(a, front + [last]) == Val(a, front) * a.Size() + (last - a.min)
  {
    assert (front + [last])[..|front|] == front;
  }

  lemma {:induction false} NextAdds(a: Alphabet, key: Key)
    requires a.Valid() && a.Spells(key)
    ensures AllMax(a, key) <==> Val(a, key) + 1 == Pow(a.Size(), |key|)
    ensures Val(a, Next(a, key)) == if AllMax(a, key) then 0 else Val(a, key) + 1
  {
    if key != [] {
      var n := |key| - 1;
      var front, last := key[..n], key[n];
      assert key == front + [last];
      ValSnoc(a, front, last);
      NextAdds(a, front);
      AllMaxIff(a, front, last);
      NextSnoc(a, front, last);
      Carry(Val(a, front), a.Size());
    }
  }

  lemma NextSnoc(a: Alphabet, front: Key, last: Token)
    requires a.Valid() && a.Spells(front) && a.min <= last <= a.max && a.Spells(front + [last])
    ensures Val(a, Next(a, front + [last])) ==
      if last < a.max then Val(a, front) * a.Size() + (last + 1 - a.min) else Val(a, Next(a, front)) * a.Size()
  {
    assert (front + [last])[..|front|] == front;
    if last < a.max {
      ValSnoc(a, front, last + 1);
    } else {
      ValSnoc(a, Next(a, front), a.min);
    }
  }

  lemma Carry(v: nat, n: nat)
    requires n > 0
    ensures v * n + (n - 1) + 1 == (v + 1) * n
  {
  }

  lemma AllMaxIff(a: Alphabet, front: Key, last: Token)
    requires a.Valid() && a.Spells(front) && a.min <= last <= a.max
    requires AllMax(a, front) <==> Val(a, front) + 1 == Pow(a.Size(), |front|)
    ensures AllMax(a, front + [last]) <==> AllMax(a, front) && last == a.max
    ensures AllMax(a, front + [last]) <==> Val(a, front + [last]) + 1 == Pow(a.Size(), |front| + 1)
  {
    var key, n := front + [last], a.Size();
    assert forall i :: 0 <= i < |front| ==> key[i] == front[i];
    assert key[|front|] == last;
    ValSnoc(a, front, last);
    ValBound(a, front);
    assert Pow(n, |front| + 1) == n * Pow(n, |front|);
    hide Val, Pow;
    LastDigit(Val(a, front), last - a.min, Pow(n, |front|), n);
  }

  lemma LastDigit(v: nat, r: nat, p: nat, n: nat)
    requires v < p && r < n
    ensures v * n + r + 1 == n * p <==> v + 1 == p && r == n - 1
  {
    Scale(v + 1, p, n);
    if v + 1 < p {
      Scale(v + 2, p, n);
    }
  }

  /** A remainder is determined by its equation. */
  lemma ModUnique(x: nat, q: nat, r: nat, p: nat)
    requires r < p && x == q * p + r
    ensures x % p == r
  {
    assert x == x / p * p + x % p;
    Digits(x / p, x % p, q, r, p);
  }

  /** The key after j steps. */
  function Nth(a: Alphabet, key: Key, j: nat): (r: Key)
    requires a.Valid() && a.Spells(key)
    ensures |r| == |key| && a.Spells(r)
  {
    if j == 0 then key else Next(a, Nth(a, key, j - 1))
  }

  lemma ModStep(x: nat, p: nat)
    requires p > 0
    ensures (x % p + 1) % p == (x + 1) % p
  {
    var q, r := x / p, x % p;
    assert x == q * p + r;
    if r + 1 == p {
      assert x + 1 == (q + 1) * p + 0;
      ModUnique(x + 1, q + 1, 0, p);
      ModUnique(r + 1, 1, 0, p);
    } else {
      ModUnique(x + 1, q, r + 1, p);
      ModUnique(r + 1, 0, r + 1, p);
    }
  }

  /** Counting up from v, wrapping at p. */
  function Counter(v: nat, p: nat, j: nat): (r: nat)
    requires v < p
    ensures r < p
  {
    if j == 0 then v
    else
      var c := Counter(v, p, j - 1);
      if c + 1 == p then 0 else c + 1
  }

  lemma {:induction false} CounterIsMod(v: nat, p: nat, j: nat)
    requires v < p
    ensures Counter(v, p, j) == (v + j) % p
  {
    if j == 0 {
      ModUnique(v, 0, v, p);
    } else {
      CounterIsMod(v, p, j - 1);
      ModStep(v + (j - 1), p);
      var c := Counter(v, p, j - 1);
      ModUnique(c + 1, if c + 1 == p then 1 else 0, if c + 1 == p then 0 else c + 1, p);
    }
  }

  lemma {:induction false} NthCounts(a: Alphabet, key: Key, j: nat)
    requires a.Valid() && a.Spells(key)
    ensures Val(a, key) < Pow(a.Size(), |key|)
    ensures Val(a, Nth(a, key, j)) == Counter(Val(a, key), Pow(a.Size(), |key|), j)
  {
    ValBound(a, key);
    if j > 0 {
      NthCounts(a, key, j - 1);
      NextAdds(a, Nth(a, key, j - 1));
    }
  }

  /** The generator is a counter in base n, where n is the number of tokens. */
  lemma NthIsCounter(a: Alphabet, key: Key, j: nat)
    requires a.Valid() && a.Spells(key)
    ensures Pow(a.Size(), |key|) > 0
    ensures Val(a, Nth(a, key, j)) == (Val(a, key) + j) % Pow(a.Size(), |key|)
  {
    NthCounts(a, key, j);
    CounterIsMod(Val(a, key), Pow(a.Size(), |key|), j);
  }

  lemma DifferentMod(x: nat, d: nat, p: nat)
    requires 0 < d < p
    ensures x % p != (x + d) % p
  {
    var q, r := x / p, x % p;
    assert x == q * p + r;
    if r + d < p {
      ModUnique(x + d, q, r + d, p);
    } else {
      assert x + d == (q + 1) * p + (r + d - p);
      ModUnique(x + d, q + 1, r + d - p, p);
    }
  }

  /** Any n^size keys in a row are distinct, and then the cycle starts again: the generator produces
    * every key of the size. */
  lemma CycleOfAllKeys(a: Alphabet, key: Key, i: nat, j: nat)
    requires a.Valid() && a.Spells(key) && i < j
    ensures j < i + Pow(a.Size(), |key|) ==> Nth(a, key, i) != Nth(a, key, j)
    ensures j == i + Pow(a.Size(), |key|) ==> Nth(a, key, i) == Nth(a, key, j)
  {
    CycleOfNumbers(a, key, i, j);
    OrderIsNumeric(a, Nth(a, key, i), Nth(a, key, j));
  }

  lemma CycleOfNumbers(a: Alphabet, key: Key, i: nat, j: nat)
    requires a.Valid() && a.Spells(key) && i < j
    ensures j < i + Pow(a.Size(), |key|) ==> Val(a, Nth(a, key, i)) != Val(a, Nth(a, key, j))
    ensures j == i + Pow(a.Size(), |key|) ==> Val(a, Nth(a, key, i)) == Val(a, Nth(a, key, j))
  {
    hide *;
    var p, v := Pow(a.Size(), |key|), Val(a, key);
    NthIsCounter(a, key, i);
    NthIsCounter(a, key, j);
    ModCycle(v + i, j - i, p);
    assert v + i + (j - i) == v + j;
  }

  lemma ModCycle(x: nat, d: nat, p: nat)
    requires 0 < d && p > 0
    ensures d < p ==> x % p != (x + d) % p
    ensures d == p ==> x % p == (x + d) % p
  {
    if d < p {
      DifferentMod(x, d, p);
    } else if d == p {
      var q, r := x / p, x % p;
      assert x == q * p + r;
      assert x + p == (q + 1) * p + r;
      ModUnique(x + p, q + 1, r, p);
    }
  }

  lemma EveryKeyComes(a: Alphabet, key: Key, target: Key) returns (j: nat)
    requires a.Valid() && a.Spells(key) && a.Spells(target) && |target| == |key|
    ensures j < Pow(a.Size(), |key|) && Nth(a, key, j) == target
  {
    ValBound(a, target);
    j := EveryNumberComes(a, key, Val(a, target));
    OrderIsNumeric(a, Nth(a, key, j), target);
  }

  lemma EveryNumberComes(a: Alphabet, key: Key, w: nat) returns (j: nat)
    requires a.Valid() && a.Spells(key) && w < Pow(a.Size(), |key|)
    ensures j < Pow(a.Size(), |key|) && Val(a, Nth(a, key, j)) == w
  {
    hide *;
    var p, v := Pow(a.Size(), |key|), Val(a, key);
    ValBound(a, key);
    j := if v <= w then w - v else w + p - v;
    NthIsCounter(a, key, j);
    ModUnique(v + j, if v <= w then 0 else 1, w, p);
  }

  /** Until it wraps, the next key is the very next one in lexicographic order. */
  lemma NextIsSuccessor(a: Alphabet, key: Key, other: Key)
    requires a.Valid() && a.Spells(key) && a.Spells(other) && |other| == |key| && !AllMax(a, key)
    ensures Less(key, Next(a, key))
    ensures !(Less(key, other) && Less(other, Next(a, key)))
  {
    NextAdds(a, key);
    OrderIsNumeric(a, key, Next(a, key));
    OrderIsNumeric(a, key, other);
    OrderIsNumeric(a, other, Next(a, key));
  }

  /** The key without some of its last tokens, all greatest ones: counting it up and padding it again
    * gives the next key. */
  ghost predicate Stripped(a: Alphabet, key: Key, left: Key)
    requires a.Valid() && a.Spells(key) && a.Spells(left)
  {
    && left <= key && AllMax(a, key[|left|..])
    && Next(a, key) == Next(a, left) + Repeat(a.min, |key| - |left|)
  }

  lemma NothingStripped(a: Alphabet, key: Key)
    requires a.Valid() && a.Spells(key)
    ensures Stripped(a, key, key)
  {
    assert key[|key|..] == [];
    assert Next(a, key) + [] == Next(a, key);
  }

  lemma StripOne(a: Alphabet, key: Key, left: Key)
    requires a.Valid() && a.Spells(key) && a.Spells(left) && Stripped(a, key, left)
    requires left != [] && left[|left| - 1] == a.max
    ensures Stripped(a, key, left[..|left| - 1])
  {
    var k := |key| - |left|;
    assert [a.min] + Repeat(a.min, k) == Repeat(a.min, k + 1);
  }

  lemma StrippedThenCounted(a: Alphabet, key: Key, left: Key)
    requires a.Valid() && a.Spells(key) && a.Spells(left) && Stripped(a, key, left)
    requires left == [] || left[|left| - 1] < a.max
    ensures AllMax(a, key) <==> left == []
    ensures |left| <= |key|
    ensures left == [] ==> Next(a, key) == Repeat(a.min, |key|)
    ensures left != [] ==>
      Next(a, key) == left[..|left| - 1] + [left[|left| - 1] + 1] + Repeat(a.min, |key| - |left|)
  {
    if left == [] {
      assert key[0..] == key;
    } else {
      assert key[|left| - 1] == left[|left| - 1];
    }
  }

  /** The state of a generator of keys of one size. Once it has raised "out of unique keys" it is
    * left with the empty key. */
  class FixedKeyGenerator {
    const keySize: nat
    const alphabet: Alphabet
    const ignoreOutOfKeys: bool
    var currentKey: Key
    var mask: Key
    var offsetIndex: nat

    ghost predicate Valid()
      reads this
    {
      && alphabet.Valid() && alphabet.Spells(currentKey)
      && (|currentKey| == keySize || (currentKey == [] && !ignoreOutOfKeys))
      && |mask| == MASK_LENGTH && alphabet.Spells(mask)
    }

    /** `mask` is the first random mask. */
    constructor (keySize: nat, alphabet: Alphabet, ignoreOutOfKeys: bool, mask: Key)
      requires alphabet.Valid() && |mask| == MASK_LENGTH && alphabet.Spells(mask)
      ensures Valid() && currentKey == Repeat(alphabet.min, keySize) && offsetIndex == 0
      ensures this.keySize == keySize && this.alphabet == alphabet && this.ignoreOutOfKeys == ignoreOutOfKeys
    {
      this.keySize, this.alphabet, this.ignoreOutOfKeys := keySize, alphabet, ignoreOutOfKeys;
      currentKey := Repeat(alphabet.min, keySize);
      this.mask, offsetIndex := mask, 0;
    }

    /** Strip the greatest tokens, count up the one before them, pad with the least token. False
      * stands for the exception, raised exactly at the key of greatest tokens. */
    method GenerateSequentialKey() returns (ok: bool)
      requires Valid()
      modifies this`currentKey
      ensures Valid()
      ensures ok <==> ignoreOutOfKeys || !AllMax(alphabet, old(currentKey))
      ensures ok ==> currentKey == Next(alphabet, old(currentKey))
      ensures !ok ==> currentKey == []
    {
      hide Stripped, Next, AllMax;
      NothingStripped(alphabet, currentKey);
      while |currentKey| > 0 && currentKey[|currentKey| - 1] == alphabet.max
        invariant alphabet.Spells(currentKey) && |currentKey| <= |old(currentKey)|
        invariant Stripped(alphabet, old(currentKey), currentKey)
      {
        StripOne(alphabet, old(currentKey), currentKey);
        currentKey := currentKey[..|currentKey| - 1];
      }
      StrippedThenCounted(alphabet, old(currentKey), currentKey);
      if |currentKey| == 0 {
        if !ignoreOutOfKeys {
          return false;
        }
        currentKey := Repeat(alphabet.min, keySize);
      } else {
        var last := |currentKey| - 1;
        currentKey := currentKey[..last] + [(currentKey[last] + 1) % 256];
      }
      currentKey := currentKey + Repeat(alphabet.min, if |currentKey| < keySize then keySize - |currentKey| else 0);
      return true;
    }

    /** A slice of the mask, from the next offset on; near its end the mask is replaced by the new
      * random one given here. The slice is cut off where the mask ends. */
    method GenerateMaskKey(size: nat, maxKeySize: nat, newMask: Key) returns (key: Key)
      requires Valid() && |newMask| == MASK_LENGTH && alphabet.Spells(newMask)
      modifies this`mask, this`offsetIndex
      ensures Valid() && alphabet.Spells(key)
      ensures var renewed := old(offsetIndex) > MASK_LENGTH - maxKeySize;
        var x := if renewed then 0 else old(offsetIndex);
        && mask == (if renewed then newMask else old(mask)) && offsetIndex == x + 1
        && (if x + size <= MASK_LENGTH then |key| == size else |key| == if x < MASK_LENGTH then MASK_LENGTH - x else 0)
        && forall i :: 0 <= i < |key| ==> key[i] == mask[x + i]
      ensures maxKeySize <= MASK_LENGTH ==> offsetIndex <= MASK_LENGTH - maxKeySize + 1
      ensures size <= maxKeySize <= MASK_LENGTH ==> |key| == size
      ensures size == maxKeySize + 1 <= MASK_LENGTH ==>
        |key| == if offsetIndex == MASK_LENGTH - maxKeySize + 1 then maxKeySize else size
    {
      if offsetIndex > MASK_LENGTH - maxKeySize {
        mask, offsetIndex := newMask, 0;
      }
      var x := offsetIndex;
      offsetIndex := offsetIndex + 1;
      if x >= |mask| {
        return [];
      }
      return mask[x..if x + size <= |mask| then x + size else |mask|];
    }

    /** The random half of `get_next_key` for this generator. */
    method GenerateRandomKey(newMask: Key)
      requires Valid() && |newMask| == MASK_LENGTH && alphabet.Spells(newMask) && keySize <= MASK_LENGTH
      modifies this
      ensures Valid() && |currentKey| == keySize
      ensures var renewed := old(offsetIndex) > MASK_LENGTH - keySize;
        var x := if renewed then 0 else old(offsetIndex);
        && mask == (if renewed then newMask else old(mask)) && offsetIndex == x + 1
        && forall i :: 0 <= i < keySize ==> currentKey[i] == mask[x + i]
    {
      currentKey := GenerateMaskKey(keySize, keySize, newMask);
    }
  }
}
