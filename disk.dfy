/** Polar Simpson quadrature over the loaded disk of the circular solvers:
    nodes r_i = linspace(0, a, n_r), theta_j = linspace(0, 2 pi, n_theta),
    area weights (w_r[i] dr / 3) (w_t[j] dtheta / 3) r_i, and the weighted
    double sum of a point-load kernel evaluated at the offsets from the nodes. */
module DiskQuadrature {
  import opened Common
  import opened Sampling
  import opened Simpson

  /** A Boussinesq point-load kernel as a function of the horizontal offset
      (dx, dy) from a loaded node and of the (clamped, positive) depth. */
  type Kernel = (real, real, Depth) -> real

  /** Radial nodes, cosines and sines of the angular nodes, and the
      n_r x n_theta area weights. */
  datatype PolarGrid = PolarGrid(rNodes: seq<real>, cosT: seq<real>, sinT: seq<real>, weights: seq<seq<real>>)

  predicate GridShaped(g: PolarGrid) {
    && |g.cosT| == |g.sinT|
    && |g.weights| == |g.rNodes|
    && forall i :: 0 <= i < |g.weights| ==> |g.weights[i]| == |g.cosT|
  }

  /** (w * delta) / 3: Simpson weights scaled by the node spacing. */
  function SimpsonFactors(w: seq<real>, delta: real): (f: seq<real>)
    ensures |f| == |w|
  {
    seq(|w|, k requires 0 <= k < |w| => (w[k] * delta) / 3.0)
  }

  /** c * s, element by element. */
  function ScaleSeq(c: real, s: seq<real>): (r: seq<real>)
    ensures |r| == |s|
  {
    seq(|s|, k requires 0 <= k < |s| => c * s[k])
  }

  /** area_weights_2d: the outer product of the radial and angular Simpson
      factors (delta / 3) w, each row then multiplied by its radius r_i (the
      polar Jacobian rho). */
  function AreaWeights(radiusA: real, nR: int, nTheta: int, wr: seq<real>, wt: seq<real>): (aw: seq<seq<real>>)
    requires nR >= 2 && nTheta >= 2 && |wr| == nR && |wt| == nTheta
    ensures |aw| == nR && forall i :: 0 <= i < nR ==> |aw[i]| == nTheta
  {
    var rNodes := Linspace(0.0, radiusA, nR);
    var fr := SimpsonFactors(wr, radiusA / ((nR - 1) as real));
    var ft := SimpsonFactors(wt, TWOPI / ((nTheta - 1) as real));
    seq(nR, i requires 0 <= i < nR => ScaleSeq(rNodes[i], ScaleSeq(fr[i], ft)))
  }

  function PolarNodes(radiusA: real, nR: int, nTheta: int, wr: seq<real>, wt: seq<real>,
                      num: Transcendentals): (g: PolarGrid)
    requires nR >= 2 && nTheta >= 2 && |wr| == nR && |wt| == nTheta
    ensures GridShaped(g) && |g.rNodes| == nR && |g.cosT| == nTheta
  {
    var thetaNodes := Linspace(0.0, TWOPI, nTheta);
    PolarGrid(Linspace(0.0, radiusA, nR), MapSeq(num.cos, thetaNodes), MapSeq(num.sin, thetaNodes),
              AreaWeights(radiusA, nR, nTheta, wr, wt))
  }

  /** K for one point (x, y, zpos): the kernel at every node, at
      dx = x - r_i cos theta_j and dy = y - r_i sin theta_j. */
  function KernelValues(kern: Kernel, x: real, y: real, zpos: Depth, g: PolarGrid): (k: seq<seq<real>>)
    requires GridShaped(g)
    ensures SameShape(k, g.weights)
  {
    seq(|g.rNodes|, i requires 0 <= i < |g.rNodes| =>
      seq(|g.cosT|, j requires 0 <= j < |g.cosT| =>
        kern(x - g.rNodes[i] * g.cosT[j], y - g.rNodes[i] * g.sinT[j], zpos)))
  }

  predicate SameShape(a: seq<seq<real>>, b: seq<seq<real>>) {
    |a| == |b| && forall i :: 0 <= i < |a| ==> |a[i]| == |b[i]|
  }

  /** u[j] * v[j], element by element. */
  function Products(u: seq<real>, v: seq<real>): (p: seq<real>)
    requires |u| == |v|
    ensures |p| == |u|
  {
    seq(|u|, j requires 0 <= j < |u| => u[j] * v[j])
  }

  /** The sum of u[j] * v[j]. */
  function Dot(u: seq<real>, v: seq<real>): real
    requires |u| == |v|
  {
    SeqSum(Products(u, v))
  }

  function RowDots(a: seq<seq<real>>, b: seq<seq<real>>): (d: seq<real>)
    requires SameShape(a, b)
    ensures |d| == |a|
  {
    seq(|a|, i requires 0 <= i < |a| => Dot(a[i], b[i]))
  }

  /** np.tensordot(a, b, axes=([1, 2], [0, 1])) for one point: the sum of
      a[i][j] * b[i][j] over both axes. */
  function Contract(a: seq<seq<real>>, b: seq<seq<real>>): real
    requires SameShape(a, b)
  {
    SeqSum(RowDots(a, b))
  }

  /** The quadrature of one kernel at one point: K contracted with the area
      weights. */
  function Quadrature(kern: Kernel, x: real, y: real, zpos: Depth, g: PolarGrid): real
    requires GridShaped(g)
  {
    Contract(KernelValues(kern, x, y, zpos, g), g.weights)
  }

  function RowTotals(aw: seq<seq<real>>): (t: seq<real>)
    ensures |t| == |aw|
  {
    seq(|aw|, i requires 0 <= i < |aw| => SeqSum(aw[i]))
  }

  /** The sum of all area weights. */
  function WeightTotal(aw: seq<seq<real>>): real {
    SeqSum(RowTotals(aw))
  }

  /** A kernel that is c everywhere gives c times the total weight, on any grid. */
  lemma QuadratureOfConstant(kern: Kernel, c: real, x: real, y: real, zpos: Depth, g: PolarGrid)
    requires GridShaped(g)
    requires forall dx: real, dy: real, z: Depth :: kern(dx, dy, z) == c
    ensures Quadrature(kern, x, y, zpos, g) == c * WeightTotal(g.weights)
  {
    KernelValuesOfConstant(kern, c, x, y, zpos, g);
    ContractOfConstant(KernelValues(kern, x, y, zpos, g), g.weights, c);
  }

  lemma KernelValuesOfConstant(kern: Kernel, c: real, x: real, y: real, zpos: Depth, g: PolarGrid)
    requires GridShaped(g)
    requires forall dx: real, dy: real, z: Depth :: kern(dx, dy, z) == c
    ensures var k := KernelValues(kern, x, y, zpos, g);
      forall i, j :: 0 <= i < |k| && 0 <= j < |k[i]| ==> k[i][j] == c
  {
  }

  /** Contracting an all-c array with b gives c times the sum of b. */
  lemma ContractOfConstant(a: seq<seq<real>>, b: seq<seq<real>>, c: real)
    requires SameShape(a, b)
    requires forall i, j :: 0 <= i < |a| && 0 <= j < |a[i]| ==> a[i][j] == c
    ensures Contract(a, b) == c * WeightTotal(b)
  {
    RowDotsOfConstant(a, b, c);
    ContractOfScaledRows(a, b, c);
  }

  /** Row dots that are c times the row totals contract to c times the total. */
  lemma ContractOfScaledRows(a: seq<seq<real>>, b: seq<seq<real>>, c: real)
    requires SameShape(a, b)
    requires forall i :: 0 <= i < |a| ==> RowDots(a, b)[i] == c * RowTotals(b)[i]
    ensures Contract(a, b) == c * WeightTotal(b)
  {
    SeqSumScale(RowTotals(b), RowDots(a, b), c);
  }

  lemma RowDotsOfConstant(a: seq<seq<real>>, b: seq<seq<real>>, c: real)
    requires SameShape(a, b)
    requires forall i, j :: 0 <= i < |a| && 0 <= j < |a[i]| ==> a[i][j] == c
    ensures forall i :: 0 <= i < |a| ==> RowDots(a, b)[i] == c * RowTotals(b)[i]
  {
    forall i | 0 <= i < |a| ensures RowDots(a, b)[i] == c * RowTotals(b)[i] {
      DotOfConstant(a[i], b[i], c);
    }
  }

  lemma DotOfConstant(u: seq<real>, v: seq<real>, c: real)
    requires |u| == |v|
    requires forall j :: 0 <= j < |u| ==> u[j] == c
    ensures Dot(u, v) == c * SeqSum(v)
  {
    ProductsOfConstant(u, v, c);
    SeqSumScale(v, Products(u, v), c);
  }

  lemma ProductsOfConstant(u: seq<real>, v: seq<real>, c: real)
    requires |u| == |v|
    requires forall j :: 0 <= j < |u| ==> u[j] == c
    ensures forall j :: 0 <= j < |u| ==> Products(u, v)[j] == c * v[j]
  {
    forall j | 0 <= j < |u| ensures Products(u, v)[j] == c * v[j] {
      MulCongruent(u[j], v[j], c);
    }
  }

  /** If s sums to total, c * s sums to c * total. */
  lemma ScaledSum(s: seq<real>, t: seq<real>, c: real, total: real)
    requires |s| == |t| && SeqSum(s) == total
    requires forall k :: 0 <= k < |s| ==> t[k] == c * s[k]
    ensures SeqSum(t) == c * total
  {
    SeqSumScale(s, t, c);
  }

  /** Composite Simpson's rule with n nodes over an interval of length len
      integrates a constant exactly: the factors (w * delta) / 3 with
      delta = len / (n - 1) add up to len. */
  lemma SimpsonFactorsSum(n: int, len: real)
    requires n >= 3 && n % 2 == 1
    ensures SeqSum(SimpsonFactors(SimpsonPattern(n), len / ((n - 1) as real))) == len
  {
    SimpsonWeightSum(n);
    FactorsSum(SimpsonPattern(n), len / ((n - 1) as real), 3.0 * ((n - 1) as real));
    StepTimesCount(len, n);
  }

  /** Scaling by (delta / 3) scales the sum. */
  lemma FactorsSum(w: seq<real>, delta: real, total: real)
    requires SeqSum(w) == total
    ensures SeqSum(SimpsonFactors(w, delta)) == (delta / 3.0) * total
  {
    var f := SimpsonFactors(w, delta);
    forall k | 0 <= k < |w| ensures f[k] == (delta / 3.0) * w[k] {
      ScaleThird(w[k], delta);
    }
    ScaledSum(w, f, delta / 3.0, total);
  }

  /** The radial factors of the area weights, r_i ((w_r[i] dr) / 3). */
  function RadialFactors(len: real, n: int): (u: seq<real>)
    requires n >= 2
    ensures |u| == n
  {
    var f := SimpsonFactors(SimpsonPattern(n), len / ((n - 1) as real));
    seq(n, i requires 0 <= i < n => LinspaceAt(0.0, len, n, i) * f[i])
  }

  /** Simpson's rule is exact for the linear integrand rho on [0, len]:
      the radial factors add up to len^2 / 2. */
  lemma SimpsonFirstMoment(n: int, len: real)
    requires n >= 3 && n % 2 == 1
    ensures SeqSum(RadialFactors(len, n)) == len * len / 2.0
  {
    var delta := len / ((n - 1) as real);
    var c := delta * delta / 3.0;
    var moment := 1.5 * ((n - 1) as real) * ((n - 1) as real);
    RadialFactorsScaled(n, len, c);
    SimpsonMomentSum(n);
    HalfSquare(len, n, c, moment);
    ScaledSumValue(SimpsonMoments(n), RadialFactors(len, n), c, moment, len * len / 2.0);
  }

  lemma ScaledSumValue(s: seq<real>, t: seq<real>, c: real, total: real, v: real)
    requires |s| == |t| && SeqSum(s) == total && c * total == v
    requires forall k :: 0 <= k < |s| ==> t[k] == c * s[k]
    ensures SeqSum(t) == v
  {
    SeqSumScale(s, t, c);
  }

  /** r_i f_i = (dr^2 / 3) (w_i i) for every radial node. */
  lemma RadialFactorsScaled(n: int, len: real, c: real)
    requires n >= 3
    requires c == (len / ((n - 1) as real)) * (len / ((n - 1) as real)) / 3.0
    ensures forall i :: 0 <= i < n ==> RadialFactors(len, n)[i] == c * SimpsonMoments(n)[i]
  {
    forall i | 0 <= i < n ensures RadialFactors(len, n)[i] == c * SimpsonMoments(n)[i] {
      RadialTerm(n, len, i, c);
    }
  }

  lemma RadialFactorAt(len: real, n: int, i: int)
    requires n >= 3 && 0 <= i < n
    ensures RadialFactors(len, n)[i] == LinspaceAt(0.0, len, n, i) * ((SimpsonPattern(n)[i] * (len / ((n - 1) as real))) / 3.0)
    ensures SimpsonMoments(n)[i] == SimpsonPattern(n)[i] * (i as real)
  {
  }

  lemma RadialTerm(n: int, len: real, i: int, c: real)
    requires n >= 3 && 0 <= i < n
    requires c == (len / ((n - 1) as real)) * (len / ((n - 1) as real)) / 3.0
    ensures RadialFactors(len, n)[i] == c * SimpsonMoments(n)[i]
  {
    var delta := len / ((n - 1) as real);
    var w := SimpsonPattern(n)[i];
    RadialFactorAt(len, n, i);
    LinspaceFromZero(len, n, i);
    MomentTerm(w, delta, i as real, (w * delta) / 3.0, LinspaceAt(0.0, len, n, i), SimpsonMoments(n)[i], c);
  }

  /** The area weights integrate the disk exactly: with Simpson weights on
      odd node counts they add up to pi a^2. */
  lemma AreaWeightsTotal(radiusA: real, nR: int, nTheta: int)
    requires nR >= 3 && nR % 2 == 1 && nTheta >= 3 && nTheta % 2 == 1
    ensures WeightTotal(AreaWeights(radiusA, nR, nTheta, SimpsonPattern(nR), SimpsonPattern(nTheta))) == PI * radiusA * radiusA
  {
    var aw := AreaWeights(radiusA, nR, nTheta, SimpsonPattern(nR), SimpsonPattern(nTheta));
    AreaRowTotals(radiusA, nR, nTheta);
    SimpsonFirstMoment(nR, radiusA);
    ScaledSum(RadialFactors(radiusA, nR), RowTotals(aw), TWOPI, radiusA * radiusA / 2.0);
    TwoPiHalfSquare(radiusA, WeightTotal(aw));
  }

  lemma TwoPiHalfSquare(a: real, t: real)
    requires t == TWOPI * (a * a / 2.0)
    ensures t == PI * a * a
  {
  }

  lemma AreaRowTotals(radiusA: real, nR: int, nTheta: int)
    requires nR >= 3 && nTheta >= 3 && nTheta % 2 == 1
    ensures var aw := AreaWeights(radiusA, nR, nTheta, SimpsonPattern(nR), SimpsonPattern(nTheta));
      forall i :: 0 <= i < nR ==> RowTotals(aw)[i] == TWOPI * RadialFactors(radiusA, nR)[i]
  {
    var aw := AreaWeights(radiusA, nR, nTheta, SimpsonPattern(nR), SimpsonPattern(nTheta));
    forall i | 0 <= i < nR ensures RowTotals(aw)[i] == TWOPI * RadialFactors(radiusA, nR)[i] {
      AreaRowTotal(radiusA, nR, nTheta, i);
    }
  }

  lemma AreaRowTotal(radiusA: real, nR: int, nTheta: int, i: int)
    requires nR >= 3 && nTheta >= 3 && nTheta % 2 == 1 && 0 <= i < nR
    ensures SeqSum(AreaWeights(radiusA, nR, nTheta, SimpsonPattern(nR), SimpsonPattern(nTheta))[i])
            == TWOPI * RadialFactors(radiusA, nR)[i]
  {
    var ft := SimpsonFactors(SimpsonPattern(nTheta), TWOPI / ((nTheta - 1) as real));
    var fi := SimpsonFactors(SimpsonPattern(nR), radiusA / ((nR - 1) as real))[i];
    var ri := LinspaceAt(0.0, radiusA, nR, i);
    AreaWeightsRow(radiusA, nR, nTheta, i);
    SimpsonFactorsSum(nTheta, TWOPI);
    RowTotal(AreaWeights(radiusA, nR, nTheta, SimpsonPattern(nR), SimpsonPattern(nTheta))[i], ri, fi, ft,
             RadialFactors(radiusA, nR)[i]);
  }

  /** A row r (f ft) with ft adding up to 2 pi adds up to 2 pi (r f). */
  lemma RowTotal(row: seq<real>, r: real, f: real, ft: seq<real>, rf: real)
    requires row == ScaleSeq(r, ScaleSeq(f, ft)) && rf == r * f && SeqSum(ft) == TWOPI
    ensures SeqSum(row) == TWOPI * rf
  {
    DoubleScaleSum(r, f, ft, TWOPI);
  }

  /** Row i of the area weights is r_i (f_i ft), and the radial factor is r_i f_i. */
  lemma AreaWeightsRow(radiusA: real, nR: int, nTheta: int, i: int)
    requires nR >= 3 && nTheta >= 3 && 0 <= i < nR
    ensures var ft := SimpsonFactors(SimpsonPattern(nTheta), TWOPI / ((nTheta - 1) as real));
      var fi := SimpsonFactors(SimpsonPattern(nR), radiusA / ((nR - 1) as real))[i];
      var ri := LinspaceAt(0.0, radiusA, nR, i);
      && AreaWeights(radiusA, nR, nTheta, SimpsonPattern(nR), SimpsonPattern(nTheta))[i] == ScaleSeq(ri, ScaleSeq(fi, ft))
      && RadialFactors(radiusA, nR)[i] == ri * fi
  {
  }

  lemma DoubleScaleSum(r: real, f: real, s: seq<real>, total: real)
    requires SeqSum(s) == total
    ensures SeqSum(ScaleSeq(r, ScaleSeq(f, s))) == total * (r * f)
  {
    ScaleSeqSum(f, s, total);
    ScaleSeqSum(r, ScaleSeq(f, s), f * total);
    Regroup(r, f, total);
  }

  lemma ScaleSeqSum(c: real, s: seq<real>, total: real)
    requires SeqSum(s) == total
    ensures SeqSum(ScaleSeq(c, s)) == c * total
  {
    SeqSumScale(s, ScaleSeq(c, s), c);
  }

  /** The grid the solvers build from odd node counts carries weights that
      add up to the disk's area pi a^2. */
  lemma PolarNodesArea(radiusA: real, nR: int, nTheta: int, num: Transcendentals)
    requires nR >= 3 && nR % 2 == 1 && nTheta >= 3 && nTheta % 2 == 1
    ensures WeightTotal(PolarNodes(radiusA, nR, nTheta, SimpsonPattern(nR), SimpsonPattern(nTheta), num).weights)
            == PI * radiusA * radiusA
  {
    PolarNodesWeights(radiusA, nR, nTheta, SimpsonPattern(nR), SimpsonPattern(nTheta), num);
    AreaWeightsTotal(radiusA, nR, nTheta);
  }

  lemma PolarNodesWeights(radiusA: real, nR: int, nTheta: int, wr: seq<real>, wt: seq<real>, num: Transcendentals)
    requires nR >= 2 && nTheta >= 2 && |wr| == nR && |wt| == nTheta
    ensures PolarNodes(radiusA, nR, nTheta, wr, wt, num).weights == AreaWeights(radiusA, nR, nTheta, wr, wt)
  {
  }

  /** Hence a kernel that is c everywhere, on a grid whose weights add up to
      total, integrates to c * total. */
  lemma QuadratureOfConstantTotal(kern: Kernel, c: real, x: real, y: real, zpos: Depth, g: PolarGrid, total: real)
    requires GridShaped(g) && WeightTotal(g.weights) == total
    requires forall dx: real, dy: real, z: Depth :: kern(dx, dy, z) == c
    ensures Quadrature(kern, x, y, zpos, g) == c * total
  {
    QuadratureOfConstant(kern, c, x, y, zpos, g);
  }

  lemma MulCongruent(a: real, b: real, c: real)
    requires a == c
    ensures a * b == c * b
  {
  }

  lemma ScaleThird(w: real, d: real)
    ensures (w * d) / 3.0 == (d / 3.0) * w
  {
  }

  lemma StepTimesCount(len: real, n: int)
    requires n >= 2
    ensures (len / ((n - 1) as real) / 3.0) * (3.0 * ((n - 1) as real)) == len
  {
  }

  lemma Regroup(r: real, f: real, c: real)
    ensures r * (f * c) == c * (r * f)
    ensures c * (r * f) == (r * f) * c
  {
  }

  lemma LinspaceFromZero(len: real, n: int, i: int)
    requires n >= 2
    ensures LinspaceAt(0.0, len, n, i) == (i as real) * (len / ((n - 1) as real))
  {
  }

  lemma MomentTerm(w: real, delta: real, i: real, f: real, r: real, m: real, c: real)
    requires f == (w * delta) / 3.0 && r == i * delta && m == w * i && c == delta * delta / 3.0
    ensures r * f == c * m
  {
  }

  lemma HalfSquare(len: real, n: int, c: real, moment: real)
    requires n >= 2
    requires c == (len / ((n - 1) as real)) * (len / ((n - 1) as real)) / 3.0
    requires moment == 1.5 * ((n - 1) as real) * ((n - 1) as real)
    ensures c * moment == len * len / 2.0
  {
    var m := (n - 1) as real;
    var delta := len / m;
    assert delta * m == len;
    calc {
      c * moment;
      (delta * m) * (delta * m) / 2.0;
    }
  }
}
