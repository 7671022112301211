module Options {

  datatype Option<+T> = None | Some(value: T)

  datatype Result<+T, +E> = Ok(value: T) | Err(error: E)

  /** For counting: how often something that does or does not hold, holds. */
  function One(b: bool): nat { if b then 1 else 0 }

  /** A map without one of its keys. */
  function Removed<K(==), V>(m: map<K, V>, k: K): map<K, V> { map x | x in m && x != k :: m[x] }

  function Without<T(==)>(s: set<T>, x: T): set<T> { set y | y in s && y != x }

  lemma WithoutSize<T>(s: set<T>, x: T)
    requires x in s
    ensures |Without(s, x)| == |s| - 1
  {
    assert s == Without(s, x) + {x};
  }

  lemma RemovedSize<K, V>(m: map<K, V>, k: K)
    requires k in m
    ensures |Removed(m, k)| == |m| - 1
  {
    var rest := Removed(m, k);
    assert m == rest[k := m[k]];
  }

  lemma {:induction false} SubsetSize<T>(a: set<T>, b: set<T>)
    requires a <= b
    ensures |a| <= |b|
    decreases b
  {
    if x :| x in b {
      assert a - {x} <= b - {x};
      SubsetSize(a - {x}, b - {x});
    }
  }

  /** A set that has at most one element more. */
  lemma OneMoreSize<T>(s: set<T>, t: set<T>, x: T, more: bool)
    requires x !in s && forall y :: y in t <==> y in s || (more && y == x)
    ensures |t| == |s| + One(more)
  {
    if more {
      assert t == s + {x};
    } else {
      assert t == s;
    }
  }
}
