/** Coalescing the block map of a file into extents, one block at a time.
  */
module Extents {
  import opened Options

  /** The device block of a file block, zero or less for a hole. */
  type BlockMap = int -> int

  /** In blocks; the records that are yielded have all three multiplied by the block size. */
  datatype Extent = Extent(logical: int, physical: int, length: int) {
    function End(): int { logical + length }

    predicate Covers(b: int) { logical <= b < End() }
  }

  /** The run maps its blocks, one after another, to device blocks one after another, and is at
    * most one block longer than the limit. */
  predicate Maps(f: BlockMap, limit: nat, e: Extent) {
    && 1 <= e.length <= limit + 1
    && forall b :: e.logical <= b < e.End() ==> f(b) > 0 && f(b) == e.physical + (b - e.logical)
  }

  /** The block behind the extent does not continue it. */
  predicate Ends(f: BlockMap, limit: nat, e: Extent) {
    f(e.End()) <= 0 || f(e.End()) != e.physical + e.length || e.length == limit + 1
  }

  predicate InExtent(es: seq<Extent>, b: int) { exists i :: 0 <= i < |es| && es[i].Covers(b) }

  /** The block straight behind an extent: the code looks at it to end the extent and then forgets
    * it, even when it is mapped. */
  predicate Dropped(es: seq<Extent>, b: int) { exists i :: 0 <= i < |es| && b == es[i].End() }

  /** The extents of the blocks from `first` up to, and not including, `next`: in order, with a
    * block between each two, and exactly the mapped blocks that were not dropped. */
  ghost predicate Coalesced(f: BlockMap, limit: nat, first: int, next: int, es: seq<Extent>) {
    && (forall i :: 0 <= i < |es| ==> Maps(f, limit, es[i]) && first <= es[i].logical && es[i].End() <= next)
    && (forall i, j :: 0 <= i < j < |es| ==> es[i].End() < es[j].logical)
    && (forall i :: 0 <= i < |es| && es[i].End() < next ==> Ends(f, limit, es[i]))
    && (forall b :: first <= b < next ==> (InExtent(es, b) <==> f(b) > 0 && !Dropped(es, b)))
  }

  /** All of these have ended before this block. */
  predicate AllEnded(f: BlockMap, limit: nat, next: int, es: seq<Extent>) {
    forall i :: 0 <= i < |es| ==> es[i].End() < next && Ends(f, limit, es[i])
  }

  lemma Skipped(f: BlockMap, limit: nat, first: int, block: int, es: seq<Extent>)
    requires Coalesced(f, limit, first, block, es) && AllEnded(f, limit, block, es) && f(block) <= 0
    ensures Coalesced(f, limit, first, block + 1, es) && AllEnded(f, limit, block + 1, es)
  {
    assert !InExtent(es, block);
  }

  lemma Extended(f: BlockMap, limit: nat, first: int, block: int, es: seq<Extent>, e: Extent)
    requires first <= block && e.End() == block && Coalesced(f, limit, first, block, es + [e])
    requires Continues(f(block), limit, e) && AllEnded(f, limit, block, es)
    ensures Coalesced(f, limit, first, block + 1, es + [e.(length := e.length + 1)])
    ensures AllEnded(f, limit, block + 1, es)
  {
    var was, now := es + [e], es + [e.(length := e.length + 1)];
    assert forall i :: 0 <= i < |es| ==> was[i] == now[i] == es[i];
    assert was[|es|] == e && now[|es|] == e.(length := e.length + 1);
    forall b | first <= b < block + 1
      ensures InExtent(now, b) <==> f(b) > 0 && !Dropped(now, b)
    {
      if b < block {
        assert InExtent(now, b) <==> InExtent(was, b) by { Same(was, now, b); }
        assert Dropped(now, b) <==> Dropped(was, b) by { Same(was, now, b); }
      } else {
        assert now[|es|].Covers(b);
      }
    }
  }

  /** Lengthening the last extent changes nothing for the blocks before its old end. */
  lemma Same(was: seq<Extent>, now: seq<Extent>, b: int)
    requires |was| == |now| > 0 && forall i :: 0 <= i < |was| - 1 ==> was[i] == now[i]
    requires now[|was| - 1].logical == was[|was| - 1].logical && now[|was| - 1].End() >= was[|was| - 1].End() > b
    ensures InExtent(was, b) <==> InExtent(now, b)
    ensures Dropped(was, b) <==> Dropped(now, b)
  {
    forall i | 0 <= i < |was|
      ensures was[i].Covers(b) <==> now[i].Covers(b)
      ensures b == was[i].End() <==> b == now[i].End()
    {
    }
  }

  lemma Closed(f: BlockMap, limit: nat, first: int, block: int, es: seq<Extent>, e: Extent)
    requires first <= block && e.End() == block && Coalesced(f, limit, first, block, es + [e])
    requires !Continues(f(block), limit, e)
    requires AllEnded(f, limit, block, es)
    ensures Coalesced(f, limit, first, block + 1, es + [e]) && AllEnded(f, limit, block + 1, es + [e])
  {
    assert (es + [e])[|es|] == e;
    assert Maps(f, limit, e);
    assert Dropped(es + [e], block);
  }

  lemma Opened(f: BlockMap, limit: nat, first: int, block: int, es: seq<Extent>)
    requires first <= block && Coalesced(f, limit, first, block, es) && f(block) > 0
    requires AllEnded(f, limit, block, es)
    ensures Coalesced(f, limit, first, block + 1, es + [Extent(block, f(block), 1)])
    ensures AllEnded(f, limit, block + 1, es)
  {
    var e := Extent(block, f(block), 1);
    var now := es + [e];
    assert forall i :: 0 <= i < |es| ==> now[i] == es[i];
    assert now[|es|] == e;
    forall b | first <= b < block + 1
      ensures InExtent(now, b) <==> f(b) > 0 && !Dropped(now, b)
    {
      if b < block {
        assert InExtent(now, b) <==> InExtent(es, b);
        assert Dropped(now, b) <==> Dropped(es, b);
      } else {
        assert now[|es|].Covers(b);
      }
    }
  }

  /** Where the scan stands before `block`: the extents closed so far, and the open one. */
  ghost predicate Scanned(f: BlockMap, limit: nat, first: int, block: int, es: seq<Extent>, open: Option<Extent>) {
    && first <= block
    && (open.Some? ==> open.value.End() == block)
    && Coalesced(f, limit, first, block, if open.Some? then es + [open.value] else es)
    && AllEnded(f, limit, block, es)
  }

  lemma BlockScanned(f: BlockMap, limit: nat, first: int, block: int, es: seq<Extent>, open: Option<Extent>)
    requires Scanned(f, limit, first, block, es, open)
    ensures open.Some? && Continues(f(block), limit, open.value) ==>
      Scanned(f, limit, first, block + 1, es, Some(open.value.(length := open.value.length + 1)))
    ensures open.Some? && !Continues(f(block), limit, open.value) ==>
      Scanned(f, limit, first, block + 1, es + [open.value], None)
    ensures open.None? ==>
      Scanned(f, limit, first, block + 1, es, if f(block) > 0 then Some(Extent(block, f(block), 1)) else None)
  {
    hide Coalesced, AllEnded;
    if open.None? {
      if f(block) > 0 {
        Opened(f, limit, first, block, es);
      } else {
        Skipped(f, limit, first, block, es);
      }
    } else if Continues(f(block), limit, open.value) {
      Extended(f, limit, first, block, es, open.value);
    } else {
      Closed(f, limit, first, block, es, open.value);
    }
  }

  lemma NoneScanned(f: BlockMap, limit: nat, first: int)
    ensures Scanned(f, limit, first, first, [], None)
  {
  }

  lemma AllScanned(f: BlockMap, limit: nat, first: int, block: int, es: seq<Extent>, open: Option<Extent>)
    requires Scanned(f, limit, first, block, es, open)
    ensures Coalesced(f, limit, first, block, if open.Some? then es + [open.value] else es)
  {
  }

  predicate Continues(pblock: int, limit: nat, e: Extent) {
    pblock > 0 && pblock == e.physical + e.length && e.length <= limit
  }

  /** `fibmap2` over a regular file, in blocks. The last block scanned is `endBlock` itself, one
    * past the end of a file that fills its blocks. */
  method Fibmap(f: BlockMap, startBlock: nat, endBlock: nat, limit: nat) returns (es: seq<Extent>)
    ensures Coalesced(f, limit, startBlock, if startBlock <= endBlock then endBlock + 1 else startBlock, es)
  {
    hide Scanned, Coalesced;
    var block := startBlock;
    var open: Option<Extent> := None;
    es := [];
    NoneScanned(f, limit, startBlock);
    while block <= endBlock
      invariant block <= endBlock + 1 || block == startBlock
      invariant Scanned(f, limit, startBlock, block, es, open)
    {
      var pblock := f(block);
      BlockScanned(f, limit, startBlock, block, es, open);
      if open.Some? {
        var e := open.value;
        if pblock > 0 && pblock == e.physical + e.length && e.length <= limit {
          open := Some(e.(length := e.length + 1));
        } else {
          es := es + [e];
          open := None;
        }
      } else if pblock > 0 {
        open := Some(Extent(block, pblock, 1));
      }
      block := block + 1;
    }
    AllScanned(f, limit, startBlock, block, es, open);
    if open.Some? {
      es := es + [open.value];
    }
  }

  // ----- The specification leaves no choice -----

  lemma Tail(f: BlockMap, limit: nat, first: int, next: int, es: seq<Extent>)
    requires es != [] && Coalesced(f, limit, first, next, es)
    ensures Coalesced(f, limit, es[0].End() + 1, next, es[1..])
  {
    var rest := es[1..];
    assert forall i :: 0 <= i < |rest| ==> rest[i] == es[i + 1];
    forall b | es[0].End() + 1 <= b < next
      ensures InExtent(rest, b) <==> InExtent(es, b)
      ensures Dropped(rest, b) <==> Dropped(es, b)
    {
      if i :| 0 <= i < |es| && es[i].Covers(b) {
        assert rest[i - 1].Covers(b);
      }
      if i :| 0 <= i < |es| && b == es[i].End() {
        assert b == rest[i - 1].End();
      }
    }
  }

  /** The first extent starts at the first mapped block. */
  lemma FirstMapped(f: BlockMap, limit: nat, first: int, next: int, es: seq<Extent>, b: int)
    requires Coalesced(f, limit, first, next, es) && first <= b < next && f(b) > 0
    requires forall c :: first <= c < b ==> f(c) <= 0
    ensures es != [] && es[0].logical == b && es[0].physical == f(b)
  {
    forall i | 0 <= i < |es|
      ensures es[i].End() != b
    {
      assert Maps(f, limit, es[i]) && f(es[i].End() - 1) > 0;
    }
    assert InExtent(es, b);
    var i :| 0 <= i < |es| && es[i].Covers(b);
    assert Maps(f, limit, es[i]) && f(es[i].logical) > 0;
    assert Maps(f, limit, es[0]) && f(es[0].logical) > 0;
  }

  lemma SameLength(f: BlockMap, limit: nat, next: int, d: Extent, e: Extent)
    requires d.logical == e.logical && d.physical == e.physical && Maps(f, limit, d) && Maps(f, limit, e)
    requires d.End() <= next && e.End() <= next
    requires (d.End() < next ==> Ends(f, limit, d)) && (e.End() < next ==> Ends(f, limit, e))
    ensures d == e
  {
    assert d.length < e.length ==> e.Covers(d.End());
    assert e.length < d.length ==> d.Covers(e.End());
  }

  /** At most one sequence of extents meets the specification. */
  lemma {:induction false} Unique(f: BlockMap, limit: nat, first: int, next: int, ds: seq<Extent>, es: seq<Extent>)
    requires Coalesced(f, limit, first, next, ds) && Coalesced(f, limit, first, next, es)
    ensures ds == es
    decreases |ds|
  {
    if ds == [] && es == [] {
    } else if ds != [] {
      StartsAtFirst(f, limit, first, next, ds);
      FirstMapped(f, limit, first, next, es, ds[0].logical);
      SameLength(f, limit, next, ds[0], es[0]);
      Tail(f, limit, first, next, ds);
      Tail(f, limit, first, next, es);
      Unique(f, limit, ds[0].End() + 1, next, ds[1..], es[1..]);
      assert ds == [ds[0]] + ds[1..] && es == [es[0]] + es[1..];
    } else {
      StartsAtFirst(f, limit, first, next, es);
      FirstMapped(f, limit, first, next, ds, es[0].logical);
    }
  }

  lemma StartsAtFirst(f: BlockMap, limit: nat, first: int, next: int, es: seq<Extent>)
    requires es != [] && Coalesced(f, limit, first, next, es)
    ensures first <= es[0].logical < next && f(es[0].logical) > 0
    ensures forall c :: first <= c < es[0].logical ==> f(c) <= 0
  {
    assert Maps(f, limit, es[0]);
    forall c | first <= c < es[0].logical
      ensures f(c) <= 0
    {
      forall i | 0 <= i < |es|
        ensures es[0].logical <= es[i].logical < es[i].End()
      {
        assert Maps(f, limit, es[i]);
      }
      assert !InExtent(es, c) && !Dropped(es, c);
    }
  }

  // ----- Which files keep all their blocks -----

  /** Every stretch of mapped blocks is consecutive on the device and fits one extent. */
  ghost predicate Clean(f: BlockMap, limit: nat, first: int, next: int) {
    && (forall b :: first < b < next && f(b) > 0 && f(b - 1) > 0 ==> f(b) == f(b - 1) + 1)
    && (forall b, c :: first <= b && c == b + limit + 2 && c <= next ==> HasHole(f, b, c))
  }

  ghost predicate HasHole(f: BlockMap, from: int, to: int) {
    exists c :: from <= c < to && f(c) <= 0
  }

  ghost predicate NothingLost(f: BlockMap, first: int, next: int, es: seq<Extent>) {
    forall b :: first <= b < next && f(b) > 0 ==> InExtent(es, b)
  }

  /** No mapped block is lost if and only if the file is clean in this sense. A file with two
    * stretches next to each other loses the first block of the second. */
  lemma NothingLostIff(f: BlockMap, limit: nat, first: int, next: int, es: seq<Extent>)
    requires Coalesced(f, limit, first, next, es)
    ensures NothingLost(f, first, next, es) <==> Clean(f, limit, first, next)
  {
    if Clean(f, limit, first, next) {
      forall b | first <= b < next && f(b) > 0
        ensures InExtent(es, b)
      {
        if i :| 0 <= i < |es| && b == es[i].End() {
          CleanNeverDrops(f, limit, first, next, es[i]);
        }
      }
    }
    if NothingLost(f, first, next, es) {
      forall b | first < b < next && f(b) > 0 && f(b - 1) > 0
        ensures f(b) == f(b - 1) + 1
      {
        Neighbours(f, limit, first, next, es, b);
      }
      forall b, c | first <= b && c == b + limit + 2 && c <= next
        ensures HasHole(f, b, c)
      {
        if !HasHole(f, b, c) {
          assert f(b) > 0 && InExtent(es, b);
          var i :| 0 <= i < |es| && es[i].Covers(b);
          OneExtent(f, limit, first, next, es, b, i, limit + 1);
        }
      }
    }
  }

  lemma CleanNeverDrops(f: BlockMap, limit: nat, first: int, next: int, e: Extent)
    requires Clean(f, limit, first, next) && Maps(f, limit, e) && first <= e.logical && e.End() < next
    requires Ends(f, limit, e)
    ensures f(e.End()) <= 0
  {
    var last := e.End() - 1;
    assert f(last) == e.physical + e.length - 1 && first < last + 1;
    assert e.length == limit + 1 ==> HasHole(f, e.logical, last + 2);
  }

  /** Neighbouring mapped blocks, none lost, are in one extent. */
  lemma Neighbours(f: BlockMap, limit: nat, first: int, next: int, es: seq<Extent>, b: int)
    requires Coalesced(f, limit, first, next, es) && NothingLost(f, first, next, es)
    requires first < b < next && f(b) > 0 && f(b - 1) > 0
    ensures forall i :: 0 <= i < |es| && es[i].Covers(b - 1) ==> es[i].Covers(b)
    ensures f(b) == f(b - 1) + 1
  {
    assert InExtent(es, b - 1) && InExtent(es, b);
    forall i | 0 <= i < |es| && es[i].Covers(b - 1)
      ensures es[i].Covers(b)
    {
      assert !Dropped(es, b);
    }
    var i :| 0 <= i < |es| && es[i].Covers(b - 1);
    assert es[i].Covers(b) && Maps(f, limit, es[i]);
  }

  lemma {:induction false} OneExtent(f: BlockMap, limit: nat, first: int, next: int, es: seq<Extent>, b: int, i: nat, k: nat)
    requires Coalesced(f, limit, first, next, es) && NothingLost(f, first, next, es)
    requires first <= b && b + k < next && !HasHole(f, b, b + k + 1)
    requires i < |es| && es[i].Covers(b)
    ensures es[i].Covers(b + k)
    ensures k <= limit
  {
    if k > 0 {
      assert !HasHole(f, b, b + k);
      OneExtent(f, limit, first, next, es, b, i, k - 1);
      assert f(b + k) > 0 && f(b + k - 1) > 0;
      Neighbours(f, limit, first, next, es, b + k);
    }
    assert Maps(f, limit, es[i]);
  }

  // ----- In bytes -----

  const MAX_EXTENT_LENGTH := 0x1000_0000_0000_0000

  /** A yielded record, in bytes. */
  datatype Record = Record(logical: int, physical: int, length: int)

  function Scaled(e: Extent, blockSize: nat): Record {
    Record(e.logical * blockSize, e.physical * blockSize, e.length * blockSize)
  }

  /** The record of an extent, in bytes, through the block map: it starts where the extent does, and each
    * of its blocks lies at its place behind the physical start. */
  ghost predicate Records(f: BlockMap, blockSize: nat, e: Extent, r: Record) {
    && r.logical == blockSize * e.logical && r.length == blockSize * e.length
    && r.physical == blockSize * f(e.logical)
    && forall b :: e.logical <= b < e.End() ==> blockSize * f(b) == r.physical + (blockSize * b - r.logical)
  }

  lemma ScaledRecords(f: BlockMap, limit: nat, blockSize: nat, e: Extent)
    requires Maps(f, limit, e)
    ensures Records(f, blockSize, e, Scaled(e, blockSize))
  {
    assert f(e.logical) == e.physical;
    forall b | e.logical <= b < e.End()
      ensures blockSize * f(b) == blockSize * e.physical + (blockSize * b - blockSize * e.logical)
    {
      assert f(b) == e.physical + (b - e.logical);
    }
  }

  /** `fibmap2`: nothing for anything but a regular file, or when extended attributes are asked
    * for. Without an end the file size is the end. */
  method Fibmap2(f: BlockMap, regular: bool, xattr: bool, fileSize: nat, blockSize: nat, start: nat, end: Option<nat>)
    returns (recs: seq<Record>, ghost es: seq<Extent>)
    requires 0 < blockSize
    ensures !regular || xattr ==> recs == []
    ensures regular && !xattr ==>
      var last := if end.Some? then end.value else fileSize;
      var (first, next) := (start / blockSize, (last + blockSize - 1) / blockSize + 1);
      && Coalesced(f, MAX_EXTENT_LENGTH / blockSize, first, if first <= next then next else first, es)
      && |recs| == |es| && forall i :: 0 <= i < |recs| ==> Records(f, blockSize, es[i], recs[i])
  {
    hide Coalesced, Records, Scaled;
    recs, es := [], [];
    if !regular || xattr {
      return;
    }
    var last := if end.Some? then end.value else fileSize;
    var extents := Fibmap(f, start / blockSize, (last + blockSize - 1) / blockSize, MAX_EXTENT_LENGTH / blockSize);
    es := extents;
    recs := InBytes(extents, blockSize);
    forall i | 0 <= i < |recs| ensures Records(f, blockSize, es[i], recs[i]) {
      EachMaps(f, MAX_EXTENT_LENGTH / blockSize, start / blockSize, (last + blockSize - 1) / blockSize, es, i);
      ScaledRecords(f, MAX_EXTENT_LENGTH / blockSize, blockSize, es[i]);
    }
  }

  lemma EachMaps(f: BlockMap, limit: nat, first: nat, end: nat, es: seq<Extent>, i: nat)
    requires i < |es| && Coalesced(f, limit, first, if first <= end then end + 1 else first, es)
    ensures Maps(f, limit, es[i])
  {
  }

  method InBytes(extents: seq<Extent>, blockSize: nat) returns (recs: seq<Record>)
    ensures |recs| == |extents| && forall i :: 0 <= i < |recs| ==> recs[i] == Scaled(extents[i], blockSize)
  {
    recs := [];
    for i := 0 to |extents|
      invariant |recs| == i && forall j :: 0 <= j < i ==> recs[j] == Scaled(extents[j], blockSize)
    {
      recs := recs + [Scaled(extents[i], blockSize)];
    }
  }
}
