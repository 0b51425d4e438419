/** Resolution and memory policy of the polar quadrature: the node counts
    actually used for a given number of evaluation points, and the batch size
    derived from a fixed transient-memory budget. */
module Policy {
  import opened Common

  /** Python's x | 1 on an integer: set the lowest bit. For every int this is
      x + 1 when x is even (two's complement) and x when it is odd, which is
      the even-to-odd bump OddCeiling. */
  function OrOne(x: int): int {
    OddCeiling(x)
  }

  /** The node-count ceiling (n_r, n_theta) for a point count, if any. */
  function NodeCap(numPoints: int): Option<(int, int)> {
    if numPoints >= 10000 then Some((31, 25))
    else if numPoints >= 4000 then Some((41, 31))
    else if numPoints >= 1000 then Some((51, 41))
    else None
  }

  /** The least odd integer that is at least n. */
  function OddCeiling(n: int): (r: int)
    ensures r % 2 == 1 && n <= r <= n + 1
  {
    if n % 2 == 0 then n + 1 else n
  }

  /** Reference definition of the policy: the odd-adjusted request, lowered
      to the cap of the point count when there is one. */
  function EffectiveNodes(numPoints: int, nR: int, nTheta: int): (int, int) {
    match NodeCap(numPoints)
    case None => (OddCeiling(nR), OddCeiling(nTheta))
    case Some((capR, capT)) => (MinInt(OddCeiling(nR), capR), MinInt(OddCeiling(nTheta), capT))
  }

  /** The node-count adjustment, step by step as the solvers perform it:
      bump even counts to odd, then clamp into [3, cap] and set the low bit. */
  method AdjustNodeCounts(numPoints: int, nR0: int, nTheta0: int) returns (nR: int, nTheta: int)
    requires nR0 >= 3 && nTheta0 >= 3
    ensures (nR, nTheta) == EffectiveNodes(numPoints, nR0, nTheta0)
  {
    nR, nTheta := nR0, nTheta0;
    if nR % 2 == 0 {
      nR := nR + 1;
    }
    if nTheta % 2 == 0 {
      nTheta := nTheta + 1;
    }
    if numPoints >= 10000 {
      nR := OrOne(MaxInt(3, MinInt(nR, 31)));
      nTheta := OrOne(MaxInt(3, MinInt(nTheta, 25)));
    } else if numPoints >= 4000 {
      nR := OrOne(MaxInt(3, MinInt(nR, 41)));
      nTheta := OrOne(MaxInt(3, MinInt(nTheta, 31)));
    } else if numPoints >= 1000 {
      nR := OrOne(MaxInt(3, MinInt(nR, 51)));
      nTheta := OrOne(MaxInt(3, MinInt(nTheta, 41)));
    }
  }

  /** What the policy guarantees: both counts odd and at least 3, never above
      the odd-adjusted request, under the cap of the point count, and equal
      to the odd-adjusted request below 1000 points. */
  lemma EffectiveNodesPolicy(numPoints: int, nR: int, nTheta: int)
    requires nR >= 3 && nTheta >= 3
    ensures var (r, t) := EffectiveNodes(numPoints, nR, nTheta);
      && r % 2 == 1 && t % 2 == 1 && r >= 3 && t >= 3
      && r <= OddCeiling(nR) && t <= OddCeiling(nTheta)
      && (numPoints >= 10000 ==> r <= 31 && t <= 25)
      && (numPoints >= 4000 ==> r <= 41 && t <= 31)
      && (numPoints >= 1000 ==> r <= 51 && t <= 41)
      && (numPoints < 1000 ==> r == OddCeiling(nR) && t == OddCeiling(nTheta))
  {
  }

  /** The final `| 1` never changes a count: in the policy it is applied to
      the minimum of two odd numbers, which is odd and at least 3. */
  lemma OrOneIsIdentityInPolicy(n: int, cap: int)
    requires n >= 3 && n % 2 == 1 && cap >= 3 && cap % 2 == 1
    ensures OrOne(MaxInt(3, MinInt(n, cap))) == MinInt(n, cap)
  {
  }

  /** Applying the policy to its own output changes nothing. */
  lemma EffectiveNodesIdempotent(numPoints: int, nR: int, nTheta: int)
    requires nR >= 3 && nTheta >= 3
    ensures var (r, t) := EffectiveNodes(numPoints, nR, nTheta);
      EffectiveNodes(numPoints, r, t) == (r, t)
  {
  }

  /** dx, dy, R2, R5, K: five float64 working arrays of n_r * n_theta per point. */
  const ArraysPerBatch: int := 5
  const BytesPerFloat: int := 8
  const TargetBytes: int := 64 * 1024 * 1024

  function BytesPerPoint(nR: int, nTheta: int): int {
    ArraysPerBatch * (nR * nTheta) * BytesPerFloat
  }

  /** The batch size of the solvers: the number of points whose transient
      arrays fit the budget, at least 1 and at most the number of points. */
  function BatchSize(numPoints: int, nR: int, nTheta: int): (bs: int)
    ensures 1 <= bs <= MaxInt(1, numPoints)
    ensures bs == 1 || bs * MaxInt(BytesPerPoint(nR, nTheta), 1) <= TargetBytes
    ensures numPoints <= 0 || bs == numPoints || (bs + 1) * MaxInt(BytesPerPoint(nR, nTheta), 1) > TargetBytes
  {
    var perPoint := MaxInt(BytesPerPoint(nR, nTheta), 1);
    var fit := TargetBytes / perPoint;
    FloorDivBounds(TargetBytes, perPoint);
    var bs := MinInt(MaxInt(1, fit), numPoints);
    if bs <= 0 then 1 else bs
  }

  lemma FloorDivBounds(a: int, d: int)
    requires a >= 0 && d >= 1
    ensures (a / d) * d <= a < (a / d + 1) * d
  {
  }

  /** With the default 61 x 41 nodes and fewer than 1000 points, a batch holds
      up to 670 points. */
  lemma DefaultBatchSize()
    ensures BatchSize(999, 61, 41) == 670
  {
  }
}
