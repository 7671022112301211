/** The table of records of the list tools: one column per field, one row per value of the primary
  * key. Inserting records is merging them, key by key.
  */
module CsvTable {
  import opened Options

  type Field = string
  type Value = string

  /** A record, as read from one line. */
  type Record = map<Field, Value>

  const NONE: Value := "None"

  // ----- What a table stands for -----

  /** For each primary key the fields ever given for it. */
  type Contents = map<Value, Record>

  /** Later fields win; a record without the primary key is ignored. */
  function Merged(pk: Field, m: Contents, r: Record): Contents {
    if pk !in r then m
    else m[r[pk] := RecordOf(m, r[pk]) + r]
  }

  function RecordOf(m: Contents, key: Value): Record { if key in m then m[key] else map[] }

  function MergeAll(pk: Field, m: Contents, rs: seq<Record>): Contents {
    if rs == [] then m else Merged(pk, MergeAll(pk, m, rs[..|rs| - 1]), rs[|rs| - 1])
  }

  /** Inserting `rs` on top of a table overrides, key by key, what was there by what `rs` alone
    * amounts to. */
  lemma {:induction false} MergeOverrides(pk: Field, m: Contents, rs: seq<Record>, key: Value)
    ensures MergeAll(pk, m, rs).Keys == m.Keys + MergeAll(pk, map[], rs).Keys
    ensures RecordOf(MergeAll(pk, m, rs), key) == RecordOf(m, key) + RecordOf(MergeAll(pk, map[], rs), key)
    decreases |rs|
  {
    if rs != [] {
      MergeOverrides(pk, m, rs[..|rs| - 1], key);
    }
  }

  lemma {:induction false} MergeAppend(pk: Field, m: Contents, bs: seq<Record>, as_: seq<Record>)
    ensures MergeAll(pk, m, bs + as_) == MergeAll(pk, MergeAll(pk, m, bs), as_)
    decreases |as_|
  {
    if as_ == [] {
      assert bs + as_ == bs;
    } else {
      var n := |as_| - 1;
      assert (bs + as_)[..|bs| + n] == bs + as_[..n];
      MergeAppend(pk, m, bs, as_[..n]);
    }
  }

  /** The last record that gives a field for a key decides its value. */
  lemma {:induction false} LastWriterWins(pk: Field, rs: seq<Record>, i: nat, f: Field)
    requires i < |rs| && pk in rs[i] && f in rs[i]
    requires forall j :: i < j < |rs| && pk in rs[j] && rs[j][pk] == rs[i][pk] ==> f !in rs[j]
    ensures var row := RecordOf(MergeAll(pk, map[], rs), rs[i][pk]); f in row && row[f] == rs[i][f]
    decreases |rs|
  {
    var n := |rs| - 1;
    if i < n {
      var front := rs[..n];
      assert forall j :: 0 <= j < n ==> front[j] == rs[j];
      LastWriterWins(pk, front, i, f);
    }
  }

  /** A key has a row exactly if some record gives it, and the row has a field exactly if some record
    * gives that field for the key. */
  lemma {:induction false} OnlyWhatIsGiven(pk: Field, rs: seq<Record>, key: Value, f: Field)
    ensures key in MergeAll(pk, map[], rs) <==> exists i :: 0 <= i < |rs| && ForKey(pk, rs[i], key)
    ensures f in RecordOf(MergeAll(pk, map[], rs), key) <==> exists i :: 0 <= i < |rs| && ForKey(pk, rs[i], key) && f in rs[i]
    decreases |rs|
  {
    if rs != [] {
      var n := |rs| - 1;
      OnlyWhatIsGiven(pk, rs[..n], key, f);
      assert rs == rs[..n] + [rs[n]];
    }
  }

  predicate ForKey(pk: Field, r: Record, key: Value) { pk in r && r[pk] == key }

  // ----- The table -----

  function Column(n: nat): seq<Value> { seq(n, _ => NONE) }

  predicate Distinct(xs: seq<Value>) {
    forall i, j :: 0 <= i < j < |xs| ==> xs[i] != xs[j]
  }

  /** Rectangular, with unique primary keys. */
  ghost predicate Rectangular(pk: Field, data: map<Field, seq<Value>>, n: nat) {
    pk in data && forall f <- data :: |data[f]| == n
  }

  /** One row per key of the contents, one column per field of any record, NONE where a record does
    * not give the field. */
  ghost predicate Depicts(pk: Field, data: map<Field, seq<Value>>, n: nat, m: Contents)
    requires Rectangular(pk, data, n)
  {
    && (forall key :: key in m <==> key in data[pk])
    && (forall f :: f in data <==> f == pk || HasField(m, f))
    && (forall i, f :: 0 <= i < n && f in data ==> data[f][i] == CellOf(m, data[pk][i], f))
  }

  ghost predicate HasField(m: Contents, f: Field) { exists key :: key in m && f in m[key] }

  function CellOf(m: Contents, key: Value, f: Field): Value {
    if key in m && f in m[key] then m[key][f] else NONE
  }

  /** A cell after the fields of the record, except those still `left`, have been stored in row `row`. */
  function CellAfter(was: map<Field, seq<Value>>, r: Record, row: nat, left: set<Field>, f: Field, i: nat): Value {
    if i == row && f in r && f !in left then r[f] else CellBefore(was, f, i)
  }

  function CellBefore(was: map<Field, seq<Value>>, f: Field, i: nat): Value {
    if f in was && i < |was[f]| then was[f][i] else NONE
  }

  ghost predicate CellsAre(now: map<Field, seq<Value>>, n: nat, was: map<Field, seq<Value>>, r: Record, row: nat,
    left: set<Field>)
    requires forall f <- now :: |now[f]| == n
  {
    && (forall f :: f in now <==> f in was || (f in r && f !in left))
    && (forall f, i: nat :: f in now && i < n ==> now[f][i] == CellAfter(was, r, row, left, f, i))
  }

  function WithCell(data: map<Field, seq<Value>>, n: nat, field: Field, row: nat, value: Value): map<Field, seq<Value>>
    requires row < n && forall f <- data :: |data[f]| == n
  {
    data[field := (if field in data then data[field] else Column(n))[row := value]]
  }

  lemma CellsStored(was: map<Field, seq<Value>>, before: map<Field, seq<Value>>, n: nat,
    r: Record, row: nat, left: set<Field>, field: Field)
    requires row < n && field in r && field in left && (forall f <- before :: |before[f]| == n)
    requires CellsAre(before, n, was, r, row, left)
    ensures var now := WithCell(before, n, field, row, r[field]);
      (forall f <- now :: |now[f]| == n) && CellsAre(now, n, was, r, row, Without(left, field))
  {
    var now := WithCell(before, n, field, row, r[field]);
    forall f, i: nat | f in now && i < n ensures now[f][i] == CellAfter(was, r, row, Without(left, field), f, i) {
      if f in before {
        assert before[f][i] == CellAfter(was, r, row, left, f, i);
      }
    }
  }

  /** `now` is `was` with the record stored in row `row`, an old one or one just below the last. */
  ghost predicate Stored(pk: Field, was: map<Field, seq<Value>>, n: nat, r: Record, row: nat,
    now: map<Field, seq<Value>>, n': nat)
    requires Rectangular(pk, was, n)
  {
    && pk in r && row <= n && n' == (if row == n then n + 1 else n)
    && (if row < n then was[pk][row] == r[pk] else r[pk] !in was[pk])
    && Rectangular(pk, now, n') && CellsAre(now, n', was, r, row, {})
  }

  lemma StoredKeys(pk: Field, was: map<Field, seq<Value>>, n: nat, r: Record, row: nat, now: map<Field, seq<Value>>, n': nat)
    requires Rectangular(pk, was, n) && Stored(pk, was, n, r, row, now, n')
    requires Distinct(was[pk])
    ensures now[pk] == was[pk] + if row < n then [] else [r[pk]]
    ensures Distinct(now[pk])
  {
    assert forall i: nat :: i < n' ==> now[pk][i] == CellAfter(was, r, row, {}, pk, i);
  }

  lemma CellDepicted(pk: Field, was: map<Field, seq<Value>>, n: nat, m: Contents, f: Field, i: nat)
    requires Rectangular(pk, was, n) && Depicts(pk, was, n, m) && i < n
    ensures CellBefore(was, f, i) == CellOf(m, was[pk][i], f)
  {
    if f in was {
      assert was[f][i] == CellOf(m, was[pk][i], f);
    } else {
      assert was[pk][i] in m && f in m[was[pk][i]] ==> HasField(m, f);
    }
  }

  lemma CellMerged(pk: Field, m: Contents, r: Record, key: Value, f: Field)
    requires pk in r
    ensures CellOf(Merged(pk, m, r), key, f) == if key == r[pk] && f in r then r[f] else CellOf(m, key, f)
  {}

  lemma StoredCell(pk: Field, was: map<Field, seq<Value>>, n: nat, m: Contents, r: Record, row: nat,
    now: map<Field, seq<Value>>, n': nat, f: Field, i: nat)
    requires Rectangular(pk, was, n) && Stored(pk, was, n, r, row, now, n')
    requires Distinct(was[pk]) && Depicts(pk, was, n, m) && f in now && i < n'
    ensures now[f][i] == CellOf(Merged(pk, m, r), now[pk][i], f)
  {
    StoredKeys(pk, was, n, r, row, now, n');
    CellMerged(pk, m, r, now[pk][i], f);
    assert now[f][i] == CellAfter(was, r, row, {}, f, i);
    assert now[pk][row] == r[pk];
    if i < n {
      CellDepicted(pk, was, n, m, f, i);
    } else {
      assert r[pk] !in m;
    }
  }

  lemma StoredFields(pk: Field, was: map<Field, seq<Value>>, n: nat, m: Contents, r: Record, f: Field)
    requires Rectangular(pk, was, n) && Depicts(pk, was, n, m) && pk in r
    ensures f in was || f in r <==> f == pk || HasField(Merged(pk, m, r), f)
  {
    var m' := Merged(pk, m, r);
    if f in r {
      assert r[pk] in m' && f in m'[r[pk]];
    } else {
      assert HasField(m, f) <==> HasField(m', f) by {
        assert forall key :: key in m' && f in m'[key] ==> key in m && f in m[key];
        assert forall key :: key in m && f in m[key] ==> key in m' && f in m'[key];
      }
    }
  }

  lemma StoredDepicts(pk: Field, was: map<Field, seq<Value>>, n: nat, m: Contents, r: Record, row: nat,
    now: map<Field, seq<Value>>, n': nat)
    requires Rectangular(pk, was, n) && Stored(pk, was, n, r, row, now, n')
    requires Distinct(was[pk]) && Depicts(pk, was, n, m)
    ensures Depicts(pk, now, n', Merged(pk, m, r))
  {
    var m' := Merged(pk, m, r);
    StoredKeys(pk, was, n, r, row, now, n');
    forall i, f | 0 <= i < n' && f in now ensures now[f][i] == CellOf(m', now[pk][i], f) {
      StoredCell(pk, was, n, m, r, row, now, n', f, i);
    }
    forall f ensures f in now <==> f == pk || HasField(m', f) {
      StoredFields(pk, was, n, m, r, f);
    }
    forall key ensures key in m' <==> key in now[pk] {
      assert key in m' <==> key in m || key == r[pk];
      if row < n { assert was[pk][row] == r[pk]; }
    }
  }

  class CSVTable {
    const primaryKey: Field
    var numCol: nat
    var numRow: nat
    var data: map<Field, seq<Value>>

    /** Rectangular, with the counts kept. */
    ghost predicate Consistent()
      reads this
    {
      Rectangular(primaryKey, data, numRow) && numCol == |data|
    }

    /** Primary keys are unique too. */
    ghost predicate Valid()
      reads this
    {
      Consistent() && Distinct(data[primaryKey])
    }

    ghost predicate Shows(m: Contents)
      requires Valid()
      reads this
    {
      Depicts(primaryKey, data, numRow, m)
    }

    constructor (primaryKey: Field)
      ensures this.primaryKey == primaryKey && Valid() && Shows(map[])
    {
      this.primaryKey := primaryKey;
      numCol, numRow, data := 1, 0, map[primaryKey := []];
    }

    method AddCol(field: Field)
      requires Consistent() && field !in data
      modifies this`numCol, this`data
      ensures Consistent() && data == old(data)[field := Column(numRow)]
    {
      numCol := numCol + 1;
      data := data[field := Column(numRow)];
    }

    method AddRow()
      requires Consistent()
      modifies this`numRow, this`data
      ensures Consistent() && numRow == old(numRow) + 1
      ensures data == map f | f in old(data) :: old(data)[f] + [NONE]
    {
      numRow := numRow + 1;
      data := map f | f in data :: data[f] + [NONE];
      assert data.Keys == old(data).Keys;
    }

    method StoreField(field: Field, value: Value, row: nat)
      requires Consistent() && row < numRow
      modifies this`numCol, this`data
      ensures Consistent() && data == WithCell(old(data), numRow, field, row, value)
    {
      if field !in data {
        AddCol(field);
      }
      data := data[field := data[field][row := value]];
    }

    /** The loop of `insert_data` over the fields of the record; `was` is the table before a row was
      * added for it. */
    method StoreFields(r: Record, row: nat, ghost was: map<Field, seq<Value>>)
      requires Consistent() && row < numRow && CellsAre(data, numRow, was, r, row, r.Keys)
      modifies this`numCol, this`data
      ensures Consistent() && CellsAre(data, numRow, was, r, row, {})
    {
      var left := r.Keys;
      while left != {}
        invariant left <= r.Keys && Consistent() && CellsAre(data, numRow, was, r, row, left)
        decreases left
      {
        hide CellsAre;
        var field :| field in left;
        CellsStored(was, data, numRow, r, row, left, field);
        StoreField(field, r[field], row);
        left := Without(left, field);
      }
    }

    /** `insert_data`: the table shows the contents with the record merged in. */
    method InsertData(r: Record, ghost m: Contents)
      requires Valid() && Shows(m)
      modifies this`numCol, this`numRow, this`data
      ensures Valid() && Shows(Merged(primaryKey, m, r))
      ensures data[primaryKey] == old(data)[primaryKey]
        + if primaryKey in r && r[primaryKey] !in old(data)[primaryKey] then [r[primaryKey]] else []
    {
      if primaryKey !in r {
        return;
      }
      var key := r[primaryKey];
      var row: nat;
      if key !in data[primaryKey] {
        row := numRow;
        AddRow();
      } else {
        row := IndexOf(data[primaryKey], key);
      }
      StoreFields(r, row, old(data));
      StoredKeys(primaryKey, old(data), old(numRow), r, row, data, numRow);
      StoredDepicts(primaryKey, old(data), old(numRow), m, r, row, data, numRow);
    }

    method InsertAll(rs: seq<Record>, ghost m: Contents)
      requires Valid() && Shows(m)
      modifies this`numCol, this`numRow, this`data
      ensures Valid() && Shows(MergeAll(primaryKey, m, rs))
    {
      ghost var now := m;
      for i := 0 to |rs|
        invariant now == MergeAll(primaryKey, m, rs[..i])
        invariant Valid() && Shows(now)
      {
        InsertData(rs[i], now);
        assert rs[..i + 1][..i] == rs[..i];
        now := Merged(primaryKey, now, rs[i]);
      }
      assert rs[..|rs|] == rs;
    }

    /** `get_row`: nothing for an unknown key, otherwise a value for every column. */
    method GetRow(key: Value, ghost m: Contents) returns (row: Record)
      requires Valid() && Shows(m)
      ensures key !in m ==> row == map[]
      ensures key in m ==> row.Keys == data.Keys && m[key].Keys <= row.Keys
      ensures key in m ==> forall f <- row :: row[f] == if f in m[key] then m[key][f] else "None"
    {
      if key !in data[primaryKey] {
        return map[];
      }
      var index := IndexOf(data[primaryKey], key);
      return map f | f in data :: data[f][index];
    }
  }

  /** The union of two lists: all of B is inserted, then all of A. The table has one row per key of
    * either, and A's fields override B's. */
  method Union(pk: Field, bs: seq<Record>, as_: seq<Record>) returns (t: CSVTable)
    ensures t.primaryKey == pk && t.Valid() && t.Shows(MergeAll(pk, map[], bs + as_))
  {
    t := new CSVTable(pk);
    t.InsertAll(bs, map[]);
    t.InsertAll(as_, MergeAll(pk, map[], bs));
    MergeAppend(pk, map[], bs, as_);
  }

  /** What the union holds for each key. */
  lemma UnionContents(pk: Field, bs: seq<Record>, as_: seq<Record>, key: Value)
    ensures var (a, b) := (MergeAll(pk, map[], as_), MergeAll(pk, map[], bs));
      && MergeAll(pk, map[], bs + as_).Keys == a.Keys + b.Keys
      && RecordOf(MergeAll(pk, map[], bs + as_), key) == RecordOf(b, key) + RecordOf(a, key)
  {
    MergeAppend(pk, map[], bs, as_);
    MergeOverrides(pk, MergeAll(pk, map[], bs), as_, key);
  }

  function IndexOf(xs: seq<Value>, x: Value): (i: nat)
    requires x in xs
    ensures i < |xs| && xs[i] == x
  {
    if xs[0] == x then 0 else 1 + IndexOf(xs[1..], x)
  }
}
