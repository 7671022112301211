/** The video search: two decoders that pick every so many frames, the window that pairs each
  * picked frame with an earlier one, and the difference of two frames.
  */
module FrameWindow {
  import opened Options

  /** A frame that was picked, with its number in the video. */
  datatype Picked<F> = Picked(frame: F, id: nat)

  lemma Strides(d: nat, every: nat)
    requires 0 < every
    ensures 0 < d ==> every <= d * every
  {
  }

  lemma Increasing(i: nat, j: nat, every: nat)
    requires 0 < every
    ensures i < j <==> i * every < j * every
    ensures i < j ==> i * every + every <= j * every
  {
    if i < j {
      Strides(j - i, every);
      assert j * every == i * every + (j - i) * every;
    } else {
      Strides(i - j, every);
      assert i * every == j * every + (i - j) * every;
    }
  }

  lemma Remainder(x: nat, q: nat, r: nat, every: nat)
    requires r < every && x == q * every + r
    ensures x % every == r
  {
    var p, s := x / every, x % every;
    assert x == p * every + s;
    Increasing(p, q, every);
    Increasing(q, p, every);
  }

  /** Frame 0, frame `every`, frame twice `every`, and so on to the end of the video. */
  ghost predicate Strided<F>(frames: seq<F>, every: nat, picked: seq<Picked<F>>) {
    && (forall i :: 0 <= i < |picked| ==> i * every < |frames| && picked[i] == Picked(frames[i * every], i * every))
    && |picked| * every >= |frames|
  }

  /** The decoder of the plain disk reads every frame and keeps count. */
  method Cv2Decoder<F>(frames: seq<F>, every: nat) returns (picked: seq<Picked<F>>)
    requires 0 < every
    ensures Strided(frames, every, picked)
  {
    picked := [];
    var frameId := 0;
    while frameId < |frames|
      invariant frameId <= |frames|
      invariant forall i :: 0 <= i < |picked| ==> i * every < |frames| && picked[i] == Picked(frames[i * every], i * every)
      invariant if |picked| == 0 then frameId == 0 else (|picked| - 1) * every < frameId <= |picked| * every
    {
      NextMultiple(frameId, |picked|, every);
      if frameId % every == 0 {
        picked := picked + [Picked(frames[frameId], frameId)];
      }
      frameId := frameId + 1;
    }
  }

  lemma NextMultiple(x: nat, k: nat, every: nat)
    requires 0 < every && if k == 0 then x == 0 else (k - 1) * every < x <= k * every
    ensures x % every == 0 <==> x == k * every
    ensures (k + 1) * every == k * every + every
  {
    if k > 0 {
      assert k * every == (k - 1) * every + every;
      if x < k * every {
        Remainder(x, k - 1, x - (k - 1) * every, every);
      } else {
        Remainder(x, k, 0, every);
      }
    }
  }

  /** The decoder of the smart disk asks for the strided frames only. */
  method SmartDecoder<F>(frames: seq<F>, numFrames: nat, every: nat) returns (picked: seq<Picked<F>>)
    requires 0 < every && numFrames <= |frames|
    ensures Strided(frames[..numFrames], every, picked)
  {
    picked := [];
    var frameId := 0;
    while frameId < numFrames
      invariant frameId == |picked| * every
      invariant forall i :: 0 <= i < |picked| ==> i * every < numFrames && picked[i] == Picked(frames[i * every], i * every)
      decreases numFrames - frameId
    {
      picked := picked + [Picked(frames[frameId], frameId)];
      assert |picked| * every == (|picked| - 1) * every + every;
      frameId := frameId + every;
    }
  }

  /** When the two agree on the number of frames they yield the same frames. */
  lemma DecodersAgree<F>(frames: seq<F>, every: nat, a: seq<Picked<F>>, b: seq<Picked<F>>)
    requires 0 < every && Strided(frames, every, a) && Strided(frames, every, b)
    ensures a == b
  {
    NotLonger(frames, every, a, b);
    NotLonger(frames, every, b, a);
  }

  lemma NotLonger<F>(frames: seq<F>, every: nat, a: seq<Picked<F>>, b: seq<Picked<F>>)
    requires 0 < every && Strided(frames, every, a) && Strided(frames, every, b)
    ensures |b| <= |a|
  {
    if b != [] {
      var i := |b| - 1;
      assert b[i].id == i * every;
      Increasing(i, |a|, every);
    }
  }

  // ----- The window -----

  /** How many picked frames back the reference lies: the least number of strides that is more than
    * `deltaFrames`. */
  function Back(deltaFrames: int, every: nat): nat
    requires 0 < every
  {
    if deltaFrames < 0 then 0 else deltaFrames / every + 1
  }

  lemma BackIsLeast(deltaFrames: int, every: nat, k: nat)
    requires 0 < every
    ensures k * every > deltaFrames <==> k >= Back(deltaFrames, every)
  {
    if deltaFrames >= 0 {
      var q, r := deltaFrames / every, deltaFrames % every;
      assert deltaFrames == q * every + r;
      Increasing(q, k, every);
      Increasing(k, q, every);
    }
  }

  datatype Pair<F> = Pair(frame: F, reference: Option<F>)

  function PairAt<F>(picked: seq<Picked<F>>, back: nat, i: nat): Pair<F>
    requires i < |picked|
  {
    Pair(picked[i].frame, if i >= back then Some(picked[i - back].frame) else None)
  }

  /** The loop over the picked frames, whose numbers exceed `deltaFrames` from index `back` on: the
    * reference of a frame is the frame `back` places before it. `widths` is what the window holds
    * after each turn, never more than `back` frames. */
  method PairFrames<F>(picked: seq<Picked<F>>, deltaFrames: int, ghost back: nat)
    returns (pairs: seq<Pair<F>>, ghost widths: seq<nat>)
    requires forall i :: 0 <= i < |picked| ==> (picked[i].id > deltaFrames <==> i >= back)
    ensures |pairs| == |picked|
    ensures forall i :: 0 <= i < |pairs| ==>
      && pairs[i].frame == picked[i].frame
      && pairs[i].reference == (if i < back then None else Some(picked[i - back].frame))
    ensures |widths| == |picked| && forall i :: 0 <= i < |widths| ==> widths[i] == if i < back then i + 1 else back
  {
    var window: seq<F> := [];
    pairs, widths := [], [];
    for i := 0 to |picked|
      invariant |pairs| == i
      invariant |window| == if i < back then i else back
      invariant |widths| == i && forall j :: 0 <= j < i ==> widths[j] == if j < back then j + 1 else back
      invariant forall j :: 0 <= j < |window| ==> window[j] == picked[i - |window| + j].frame
      invariant forall j :: 0 <= j < i ==> pairs[j] == PairAt(picked, back, j)
    {
      ghost var was := window;
      window := window + [picked[i].frame];
      var reference: Option<F> := None;
      if picked[i].id > deltaFrames {
        assert window[0] == if was == [] then picked[i].frame else was[0];
        reference := Some(window[0]);
        window := window[1..];
      }
      pairs := pairs + [Pair(picked[i].frame, reference)];
      widths := widths + [|window|];
    }
  }

  /** With a stride: frames get a reference exactly when their number exceeds `deltaFrames`, and
    * every reference precedes its frame by the same distance, the least multiple of the stride
    * greater than `deltaFrames`. */
  lemma ReferenceDistance<F>(frames: seq<F>, picked: seq<Picked<F>>, every: nat, deltaFrames: int, i: nat)
    requires 0 < every && Strided(frames, every, picked) && i < |picked|
    ensures var back := Back(deltaFrames, every);
      && (picked[i].id > deltaFrames <==> i >= back)
      && (i >= back ==> picked[i].id == picked[i - back].id + back * every)
    ensures forall k: nat :: k * every > deltaFrames <==> Back(deltaFrames, every) * every <= k * every
  {
    var back := Back(deltaFrames, every);
    BackIsLeast(deltaFrames, every, i);
    if i >= back {
      assert i * every == (i - back) * every + back * every;
    }
    forall k: nat
      ensures k * every > deltaFrames <==> back * every <= k * every
    {
      BackIsLeast(deltaFrames, every, k);
      Increasing(k, back, every);
    }
  }

  // ----- The difference of two frames -----

  type Row = seq<real>

  function Product(x: real, y: real): real { x * y }

  function SquaredError(a: Row, b: Row): real
    requires |a| == |b|
  {
    if a == [] then 0.0 else Product(a[0] - b[0], a[0] - b[0]) + SquaredError(a[1..], b[1..])
  }

  /** Equal rows have no error and different ones have some; one element contributes the square of its
    * difference. */
  lemma {:induction false} ErrorOfOneElement(a: Row, b: Row, k: nat, x: real)
    requires |a| == |b| && k < |a|
    ensures SquaredError(a[k := x], b) == SquaredError(a, b) - (a[k] - b[k]) * (a[k] - b[k]) + (x - b[k]) * (x - b[k])
  {
    if k == 0 {
      assert a[k := x][1..] == a[1..];
    } else {
      assert a[k := x][1..] == a[1..][k - 1 := x];
      ErrorOfOneElement(a[1..], b[1..], k - 1, x);
    }
  }

  lemma {:induction false} NoErrorIff(a: Row, b: Row)
    requires |a| == |b|
    ensures SquaredError(a, b) >= 0.0
    ensures SquaredError(a, b) == 0.0 <==> a == b
  {
    if a != [] {
      NoErrorIff(a[1..], b[1..]);
      assert a == [a[0]] + a[1..] && b == [b[0]] + b[1..];
      ProductSign(a[0] - b[0], a[0] - b[0]);
      hide Product;
    }
  }

  lemma ProductSign(x: real, y: real)
    ensures (x > 0.0 && y > 0.0) || (x < 0.0 && y < 0.0) ==> Product(x, y) > 0.0
    ensures x == 0.0 ==> Product(x, y) == 0.0
  {
    if x < 0.0 && y < 0.0 {
      assert Product(x, y) == -x * -y;
    }
  }

  predicate SameShape(a: seq<Row>, b: seq<Row>) {
    |a| == |b| && forall i :: 0 <= i < |a| ==> |a[i]| == |b[i]|
  }

  /** The squared error over rows `from` up to `upto`. */
  function ErrorOf(a: seq<Row>, b: seq<Row>, from: nat, upto: nat): real
    requires SameShape(a, b) && from <= upto <= |a|
    decreases upto
  {
    if from == upto then 0.0 else ErrorOf(a, b, from, upto - 1) + SquaredError(a[upto - 1], b[upto - 1])
  }

  lemma {:induction false} ErrorSplits(a: seq<Row>, b: seq<Row>, from: nat, mid: nat, upto: nat)
    requires SameShape(a, b) && from <= mid <= upto <= |a|
    ensures ErrorOf(a, b, from, upto) == ErrorOf(a, b, from, mid) + ErrorOf(a, b, mid, upto)
    ensures upto == from + 1 ==> ErrorOf(a, b, from, upto) == SquaredError(a[from], b[from])
    decreases upto
  {
    if mid < upto {
      ErrorSplits(a, b, from, mid, upto - 1);
    }
  }

  /** The number of elements of an image. */
  function Size(a: seq<Row>): nat { if a == [] then 0 else |a[0]| + Size(a[1..]) }

  /** Every row of so many columns counts with all of them. */
  lemma {:induction false} SizeOfImage(a: seq<Row>, columns: nat)
    requires forall i :: 0 <= i < |a| ==> |a[i]| == columns
    ensures Size(a) == |a| * columns
  {
    if a != [] {
      SizeOfImage(a[1..], columns);
      assert |a| * columns == columns + (|a| - 1) * columns;
    }
  }

  /** `mse` adds up chunks of rows; the result is the same for every chunk size. An image without
    * elements has no mean. */
  method Mse(a: seq<Row>, b: seq<Row>, chunk: nat) returns (mean: Option<real>)
    requires SameShape(a, b) && 0 < chunk
    ensures mean == if Size(a) == 0 then None else Some(ErrorOf(a, b, 0, |a|) / Size(a) as real)
  {
    var size := Size(a);
    var sum := 0.0;
    var x := 0;
    while x < |a|
      invariant x <= |a| + chunk
      invariant sum == ErrorOf(a, b, 0, if x <= |a| then x else |a|)
      decreases |a| - x
    {
      var end := if x + chunk <= |a| then x + chunk else |a|;
      var part := 0.0;
      for r := x to end
        invariant part == ErrorOf(a, b, x, r)
      {
        part := part + SquaredError(a[r], b[r]);
      }
      ErrorSplits(a, b, 0, x, end);
      sum := sum + part;
      x := x + chunk;
    }
    return if size == 0 then None else Some(sum / size as real);
  }
}
