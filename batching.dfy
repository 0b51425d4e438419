/** Memory-bounded batched evaluation: `for start in range(0, n, batch_size)`
    writes the values of the slice [start, min(start + batch_size, n)) into a
    preallocated output array. */
module Batching {
  import opened Common

  /** The values of Python's range(start, stop, step) for step >= 1. */
  function Range(start: int, stop: int, step: int): (r: seq<int>)
    requires step >= 1
    decreases stop - start
  {
    if start >= stop then [] else [start] + Range(start + step, stop, step)
  }

  /** Entry k of range(start, stop, step) is start + k * step, below stop. */
  lemma {:induction false} RangeAt(start: int, stop: int, step: int, k: int)
    requires step >= 1 && 0 <= k < |Range(start, stop, step)|
    ensures Range(start, stop, step)[k] == start + k * step < stop
    decreases stop - start
  {
    if k > 0 {
      RangeAt(start + step, stop, step, k - 1);
      assert Range(start, stop, step)[k] == Range(start + step, stop, step)[k - 1];
      assert start + step + (k - 1) * step == start + k * step;
    }
  }

  /** A non-empty range ends with its last value within one step of stop. */
  lemma {:induction false} RangeLast(start: int, stop: int, step: int)
    requires step >= 1 && start < stop
    ensures var r := Range(start, stop, step); |r| >= 1 && r[|r| - 1] + step >= stop
    decreases stop - start
  {
    var rest := Range(start + step, stop, step);
    assert Range(start, stop, step) == [start] + rest;
    if start + step < stop {
      RangeLast(start + step, stop, step);
      assert ([start] + rest)[|rest|] == rest[|rest| - 1];
    } else {
      assert rest == [];
    }
  }

  /** The slices visited by the loop partition [0, n) in increasing order:
      batch k starts at k * bs, each batch ends where the next one starts,
      the last one ends at n, and index i lies in batch i / bs. As the
      slices are contiguous and strictly increasing, no index lies in two. */
  lemma BatchSlicesPartition(n: int, bs: int)
    requires n >= 0 && bs >= 1
    ensures var starts := Range(0, n, bs);
      && (n > 0 ==> |starts| >= 1 && starts[0] == 0 && MinInt(starts[|starts| - 1] + bs, n) == n)
      && (forall k :: 0 <= k < |starts| ==> starts[k] == k * bs)
      && (forall k :: 0 <= k < |starts| - 1 ==> starts[k] < starts[k + 1] == starts[k] + bs < n)
      && (forall i :: 0 <= i < n ==> 0 <= i / bs < |starts| && starts[i / bs] <= i < MinInt(starts[i / bs] + bs, n))
  {
    var starts := Range(0, n, bs);
    if n > 0 {
      RangeLast(0, n, bs);
      RangeAt(0, n, bs, 0);
      RangeAt(0, n, bs, |starts| - 1);
    }
    BatchStarts(n, bs);
    BatchesConsecutive(n, bs);
    BatchesCover(n, bs);
  }

  lemma BatchStarts(n: int, bs: int)
    requires n >= 0 && bs >= 1
    ensures var starts := Range(0, n, bs); forall k :: 0 <= k < |starts| ==> starts[k] == k * bs
  {
    var starts := Range(0, n, bs);
    forall k | 0 <= k < |starts| ensures starts[k] == k * bs {
      RangeAt(0, n, bs, k);
    }
  }

  lemma BatchesConsecutive(n: int, bs: int)
    requires n >= 0 && bs >= 1
    ensures var starts := Range(0, n, bs);
      forall k :: 0 <= k < |starts| - 1 ==> starts[k] < starts[k + 1] == starts[k] + bs < n
  {
    var starts := Range(0, n, bs);
    forall k | 0 <= k < |starts| - 1 ensures starts[k] < starts[k + 1] == starts[k] + bs < n {
      RangeAt(0, n, bs, k);
      RangeAt(0, n, bs, k + 1);
    }
  }

  lemma BatchesCover(n: int, bs: int)
    requires n >= 0 && bs >= 1
    ensures var starts := Range(0, n, bs);
      forall i :: 0 <= i < n ==> 0 <= i / bs < |starts| && starts[i / bs] <= i < MinInt(starts[i / bs] + bs, n)
  {
    forall i | 0 <= i < n
      ensures var starts := Range(0, n, bs);
        0 <= i / bs < |starts| && starts[i / bs] <= i < MinInt(starts[i / bs] + bs, n)
    {
      BatchOfIndex(n, bs, i);
    }
  }

  lemma BatchOfIndex(n: int, bs: int, i: int)
    requires bs >= 1 && 0 <= i < n
    ensures var starts := Range(0, n, bs);
      0 <= i / bs < |starts| && starts[i / bs] <= i < MinInt(starts[i / bs] + bs, n)
  {
    var starts := Range(0, n, bs);
    var k := i / bs;
    DivBounds(i, bs);
    RangeLast(0, n, bs);
    var last := |starts| - 1;
    RangeAt(0, n, bs, last);
    if last < k {
      MulMonotone(last + 1, k, bs);
      assert false;
    }
    RangeAt(0, n, bs, k);
  }

  lemma DivBounds(i: int, d: int)
    requires i >= 0 && d >= 1
    ensures 0 <= i / d && (i / d) * d <= i < (i / d) * d + d
  {
  }

  lemma MulMonotone(a: int, b: int, d: int)
    requires 0 <= a <= b && d >= 1
    ensures a * d <= b * d
  {
  }

  /** Reference evaluation split into consecutive sub-batches of arbitrary
      sizes and concatenated; once the sizes run out, the rest is one batch. */
  function EvaluateSplit<P, T>(eval: P -> T, pts: seq<P>, sizes: seq<nat>): seq<T>
    decreases |sizes|
  {
    if |sizes| == 0 then MapSeq(eval, pts)
    else
      var cut := MinInt(sizes[0], |pts|);
      MapSeq(eval, pts[..cut]) + EvaluateSplit(eval, pts[cut..], sizes[1..])
  }

  /** Batch invariance: however the points are cut into sub-batches, the
      concatenated result is the unbatched, point-by-point evaluation. */
  lemma {:induction false} SplitEvaluationInvariant<P, T>(eval: P -> T, pts: seq<P>, sizes: seq<nat>)
    ensures EvaluateSplit(eval, pts, sizes) == MapSeq(eval, pts)
    decreases |sizes|
  {
    if |sizes| > 0 {
      var cut := MinInt(sizes[0], |pts|);
      SplitEvaluationInvariant(eval, pts[cut..], sizes[1..]);
      var left, right := MapSeq(eval, pts[..cut]), MapSeq(eval, pts[cut..]);
      forall k | 0 <= k < |pts| ensures (left + right)[k] == eval(pts[k]) {
        if k < cut {
          assert pts[..cut][k] == pts[k];
        } else {
          assert pts[cut..][k - cut] == pts[k];
        }
      }
    }
  }

  /** The batch loop of the circular solvers. Each batch evaluates its slice
      at once and writes it at the slice's offset; the result is the
      point-by-point evaluation whatever the batch size, and the batch starts
      visited are exactly range(0, n, batchSize). */
  method FillInBatches<P, T>(out: array<T>, pts: seq<P>, batchSize: int, eval: P -> T)
    returns (ghost starts: seq<int>)
    requires out.Length == |pts| && batchSize >= 1
    modifies out
    ensures out[..] == MapSeq(eval, pts)
    ensures starts == Range(0, |pts|, batchSize)
  {
    var n := |pts|;
    var start := 0;
    starts := [];
    while start < n
      invariant 0 <= start
      invariant starts + Range(start, n, batchSize) == Range(0, n, batchSize)
      invariant forall i :: 0 <= i < start && i < n ==> out[i] == eval(pts[i])
      decreases n - start
    {
      var stop := MinInt(start + batchSize, n);
      var batch := MapSeq(eval, pts[start..stop]);
      for k := start to stop
        invariant forall i :: 0 <= i < start ==> out[i] == eval(pts[i])
        invariant forall i :: start <= i < k ==> out[i] == batch[i - start]
      {
        out[k] := batch[k - start];
      }
      assert Range(start, n, batchSize) == [start] + Range(start + batchSize, n, batchSize);
      starts := starts + [start];
      start := start + batchSize;
    }
  }
}
