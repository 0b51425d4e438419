/** The two circular-footing solvers, integrate_circular_sigma_z and
    integrate_circular_stress_full: validation, the node-count policy, the
    polar Simpson grid, batched quadrature into preallocated arrays, the depth
    clamp and the free-surface overwrite. The Boussinesq point kernels are
    parameters. */
module Circle {
  import opened Common
  import opened Policy
  import opened Simpson
  import opened Batching
  import opened Surface
  import opened DiskQuadrature

  /** The point kernels of the full routine: K_zz, K_xz and K_yz as
      functions of (dx, dy, zpos). K_zz is also the kernel of the sigma_z
      routine: 3 z^3 / (2 pi R^5) and (3 / (2 pi)) z^3 / R^5 are the same
      real function. */
  datatype Kernels = Kernels(zz: Kernel, xz: Kernel, yz: Kernel)

  /** A point in the footing's frame: shifted by -center, depth clamped. */
  datatype LocalPoint = LocalPoint(x: real, y: real, zpos: Depth)

  function Localize(p: Point3, center: XY, radiusA: real): (lp: LocalPoint)
    ensures lp.x == p.x - center.x && lp.y == p.y - center.y
    ensures lp.zpos >= DiskDepthEps(radiusA)
    ensures p.z >= DiskDepthEps(radiusA) ==> lp.zpos == p.z
  {
    LocalPoint(p.x - center.x, p.y - center.y, ClampDepth(p.z, DiskDepthEps(radiusA)))
  }

  /** The grid both solvers integrate on for numPoints points and requested
      counts (nR0, nTheta0): Simpson weights on the policy's node counts. */
  function SolverGrid(radiusA: real, numPoints: int, nR0: int, nTheta0: int, num: Transcendentals): (g: PolarGrid)
    requires nR0 >= 3 && nTheta0 >= 3
    ensures GridShaped(g)
    ensures (|g.rNodes|, |g.cosT|) == EffectiveNodes(numPoints, nR0, nTheta0)
  {
    EffectiveNodesPolicy(numPoints, nR0, nTheta0);
    var (nR, nTheta) := EffectiveNodes(numPoints, nR0, nTheta0);
    PolarNodes(radiusA, nR, nTheta, SimpsonPattern(nR), SimpsonPattern(nTheta), num)
  }

  /** q times the quadrature of one kernel at a local point. */
  function Integrated(kern: Kernel, q: real, g: PolarGrid, lp: LocalPoint): real
    requires GridShaped(g)
  {
    q * Quadrature(kern, lp.x, lp.y, lp.zpos, g)
  }

  predicate OnSurface(p: Point3, radiusA: real) {
    p.z <= DiskDepthEps(radiusA)
  }

  /** sigma_z of point p from its integrated value v: the surface bands on
      r = hypot(x - cx, y - cy) where z <= z_eps, v elsewhere. */
  function SurfaceSigma(v: real, p: Point3, radiusA: real, q: real, center: XY, num: Transcendentals): real {
    BandOverwrite(v, OnSurface(p, radiusA), num.hypot(p.x - center.x, p.y - center.y),
                  radiusA, DiskEdgeTol(radiusA), q)
  }

  /** Reference definition of the sigma_z entry of point p: the integrated
      K_zz at the clamped depth, then the surface bands. */
  function SigmaZAt(p: Point3, radiusA: real, q: real, center: XY, g: PolarGrid, kzz: Kernel,
                    num: Transcendentals): real
    requires GridShaped(g)
  {
    SurfaceSigma(Integrated(kzz, q, g, Localize(p, center, radiusA)), p, radiusA, q, center, num)
  }

  /** tau_rz from the integrated shears of a local point: sig_xz cos(phi) +
      sig_yz sin(phi) with phi = atan2(y, x), or 0 at the free surface. */
  function Projected(s: Integrals, lp: LocalPoint, onSurface: bool, num: Transcendentals): real {
    var phi := num.atan2(lp.y, lp.x);
    if onSurface then 0.0 else s.xz * num.cos(phi) + s.yz * num.sin(phi)
  }

  /** Reference definition of the tau_rz entry of point p. */
  function TauRZAt(p: Point3, radiusA: real, q: real, center: XY, g: PolarGrid, kern: Kernels,
                   num: Transcendentals): real
    requires GridShaped(g)
  {
    var lp := Localize(p, center, radiusA);
    Projected(IntegrateAll(kern, q, g, lp), lp, OnSurface(p, radiusA), num)
  }

  /** The three integrated components of one point, written by one batch. */
  datatype Integrals = Integrals(zz: real, xz: real, yz: real)

  function IntegrateAll(kern: Kernels, q: real, g: PolarGrid, lp: LocalPoint): Integrals
    requires GridShaped(g)
  {
    Integrals(Integrated(kern.zz, q, g, lp), Integrated(kern.xz, q, g, lp), Integrated(kern.yz, q, g, lp))
  }

  /** The validation shared by both solvers, in their order: radius, then
      depths, then node counts. */
  function Validate(points: seq<Point3>, radiusA: real, nR0: int, nTheta0: int): (e: Option<DomainError>)
    ensures e == None <==> radiusA > 0.0 && (forall k :: 0 <= k < |points| ==> points[k].z >= 0.0)
                           && nR0 >= 3 && nTheta0 >= 3
    ensures radiusA <= 0.0 ==> e == Some(NonPositiveRadius)
    ensures radiusA > 0.0 && (exists k :: 0 <= k < |points| && points[k].z < 0.0) ==> e == Some(NegativeDepth)
    ensures (radiusA > 0.0 && (forall k :: 0 <= k < |points| ==> points[k].z >= 0.0)
             && (nR0 < 3 || nTheta0 < 3)) ==> e == Some(TooFewNodes)
  {
    if radiusA <= 0.0 then Some(NonPositiveRadius)
    else if AnyNegativeDepth(points) then Some(NegativeDepth)
    else if nR0 < 3 || nTheta0 < 3 then Some(TooFewNodes)
    else None
  }

  /** The node counts, weights and grid the solvers build before the batch
      loop, step by step. */
  method BuildGrid(radiusA: real, numPoints: int, nR0: int, nTheta0: int, num: Transcendentals)
    returns (grid: PolarGrid, nR: int, nTheta: int)
    requires nR0 >= 3 && nTheta0 >= 3
    ensures grid == SolverGrid(radiusA, numPoints, nR0, nTheta0, num)
    ensures (nR, nTheta) == EffectiveNodes(numPoints, nR0, nTheta0)
  {
    nR, nTheta := AdjustNodeCounts(numPoints, nR0, nTheta0);
    EffectiveNodesPolicy(numPoints, nR0, nTheta0);
    var wr := SimpsonWeights(nR);
    var wt := SimpsonWeights(nTheta);
    grid := PolarNodes(radiusA, nR, nTheta, wr, wt, num);
  }

  /** The local coordinates x_all, y_all, zpos_all of every point. */
  function LocalPoints(points: seq<Point3>, center: XY, radiusA: real): (local: seq<LocalPoint>)
    ensures |local| == |points|
    ensures forall k :: 0 <= k < |points| ==> local[k] == Localize(points[k], center, radiusA)
  {
    MapSeq((p: Point3) => Localize(p, center, radiusA), points)
  }

  /** integrate_circular_sigma_z. Each error is raised before anything is
      computed; otherwise entry k is SigmaZAt of point k on the solver grid,
      whatever the batch size. */
  method IntegrateCircularSigmaZ(points: seq<Point3>, radiusA: real, q: real, center: XY,
                                 nR0: int, nTheta0: int, kzz: Kernel, num: Transcendentals)
    returns (r: Result<seq<real>>)
    ensures Validate(points, radiusA, nR0, nTheta0).Some? ==> r == Err(Validate(points, radiusA, nR0, nTheta0).value)
    ensures Validate(points, radiusA, nR0, nTheta0).None? ==>
      r.Ok? && |r.value| == |points| &&
      forall k :: 0 <= k < |points| ==>
        r.value[k] == SigmaZAt(points[k], radiusA, q, center, SolverGrid(radiusA, |points|, nR0, nTheta0, num), kzz, num)
  {
    var err := Validate(points, radiusA, nR0, nTheta0);
    if err.Some? {
      return Err(err.value);
    }
    var n := |points|;
    var grid, nR, nTheta := BuildGrid(radiusA, n, nR0, nTheta0, num);
    var local := LocalPoints(points, center, radiusA);
    var sigmaZ := new real[n];
    var bs := BatchSize(n, nR, nTheta);
    ghost var starts := FillInBatches(sigmaZ, local, bs, (lp: LocalPoint) => Integrated(kzz, q, grid, lp));
    SurfaceBands(sigmaZ, points, local, center, radiusA, q, num);
    r := Ok(sigmaZ[..]);
    forall k | 0 <= k < n
      ensures r.value[k] == SigmaZAt(points[k], radiusA, q, center, grid, kzz, num)
    {
    }
  }

  /** The near-surface analytical limit on sigma_z: the three banded writes
      on the surface points, every other entry untouched. */
  method SurfaceBands(sigmaZ: array<real>, points: seq<Point3>, local: seq<LocalPoint>, center: XY, radiusA: real,
                      q: real, num: Transcendentals)
    requires sigmaZ.Length == |points| == |local|
    requires forall k :: 0 <= k < |points| ==> local[k] == Localize(points[k], center, radiusA)
    modifies sigmaZ
    ensures forall k :: 0 <= k < sigmaZ.Length ==>
      sigmaZ[k] == SurfaceSigma(old(sigmaZ[k]), points[k], radiusA, q, center, num)
  {
    var n := |points|;
    var surfaceMask := seq(n, k requires 0 <= k < n => OnSurface(points[k], radiusA));
    var rAll := seq(n, k requires 0 <= k < n => num.hypot(local[k].x, local[k].y));
    OverwriteBands(sigmaZ, surfaceMask, rAll, radiusA, DiskEdgeTol(radiusA), q);
  }

  /** The two outputs of the full routine, aligned with the input points. */
  datatype DiskStress = DiskStress(sigmaZ: seq<real>, tauRZ: seq<real>)

  /** integrate_circular_stress_full. The same validation as the sigma_z
      routine; otherwise sigma_z is entry by entry the sigma_z routine's
      result (on K_zz) and tau_rz is TauRZAt. */
  method IntegrateCircularStressFull(points: seq<Point3>, radiusA: real, q: real, center: XY,
                                     nR0: int, nTheta0: int, kern: Kernels, num: Transcendentals)
    returns (r: Result<DiskStress>)
    ensures Validate(points, radiusA, nR0, nTheta0).Some? ==> r == Err(Validate(points, radiusA, nR0, nTheta0).value)
    ensures Validate(points, radiusA, nR0, nTheta0).None? ==>
      r.Ok? && |r.value.sigmaZ| == |points| && |r.value.tauRZ| == |points| &&
      forall k :: 0 <= k < |points| ==>
        var g := SolverGrid(radiusA, |points|, nR0, nTheta0, num);
        && r.value.sigmaZ[k] == SigmaZAt(points[k], radiusA, q, center, g, kern.zz, num)
        && r.value.tauRZ[k] == TauRZAt(points[k], radiusA, q, center, g, kern, num)
  {
    var err := Validate(points, radiusA, nR0, nTheta0);
    if err.Some? {
      return Err(err.value);
    }
    var n := |points|;
    var grid, nR, nTheta := BuildGrid(radiusA, n, nR0, nTheta0, num);
    var local := LocalPoints(points, center, radiusA);
    var sums := new Integrals[n](_ => Integrals(0.0, 0.0, 0.0));
    var bs := BatchSize(n, nR, nTheta);
    ghost var starts := FillInBatches(sums, local, bs, (lp: LocalPoint) => IntegrateAll(kern, q, grid, lp));
    var integrals := sums[..];
    var sigmaZ, tau := SurfaceOutputs(integrals, points, local, center, radiusA, q, num);
    r := Ok(DiskStress(sigmaZ, tau));
    forall k | 0 <= k < n
      ensures r.value.sigmaZ[k] == SigmaZAt(points[k], radiusA, q, center, grid, kern.zz, num)
      ensures r.value.tauRZ[k] == TauRZAt(points[k], radiusA, q, center, grid, kern, num)
    {
      assert integrals[k] == IntegrateAll(kern, q, grid, local[k]);
    }
  }

  /** After the batch loop: tau_rz from the shears, and sigma_z as a copy of
      sig_zz with the surface bands written into it. */
  method SurfaceOutputs(sums: seq<Integrals>, points: seq<Point3>, local: seq<LocalPoint>, center: XY,
                        radiusA: real, q: real, num: Transcendentals)
    returns (sigmaZ: seq<real>, tau: seq<real>)
    requires |sums| == |points| == |local|
    requires forall k :: 0 <= k < |points| ==> local[k] == Localize(points[k], center, radiusA)
    ensures |sigmaZ| == |points| && |tau| == |points|
    ensures forall k :: 0 <= k < |points| ==>
      sigmaZ[k] == SurfaceSigma(sums[k].zz, points[k], radiusA, q, center, num)
    ensures forall k :: 0 <= k < |points| ==>
      tau[k] == Projected(sums[k], local[k], OnSurface(points[k], radiusA), num)
  {
    var n := |points|;
    tau := ShearProjection(sums, points, local, radiusA, num);
    var sig := new real[n](k requires 0 <= k < n => sums[k].zz);
    SurfaceBands(sig, points, local, center, radiusA, q, num);
    sigmaZ := sig[..];
  }

  /** tau_rz = sig_xz cos(phi) + sig_yz sin(phi), then zeroed at the free
      surface. */
  method ShearProjection(sums: seq<Integrals>, points: seq<Point3>, local: seq<LocalPoint>, radiusA: real,
                         num: Transcendentals)
    returns (tau: seq<real>)
    requires |sums| == |points| == |local|
    ensures |tau| == |points|
    ensures forall k :: 0 <= k < |points| ==>
      tau[k] == Projected(sums[k], local[k], OnSurface(points[k], radiusA), num)
  {
    var n := |points|;
    var phi := seq(n, k requires 0 <= k < n => num.atan2(local[k].y, local[k].x));
    var arr := new real[n](k requires 0 <= k < n => sums[k].xz * num.cos(phi[k]) + sums[k].yz * num.sin(phi[k]));
    var surfaceMask := seq(n, k requires 0 <= k < n => OnSurface(points[k], radiusA));
    ZeroOnSurface(arr, surfaceMask);
    tau := arr[..];
  }

  /** At the free surface, whatever the quadrature gave (v for sigma_z, s
      for the shears): tau_rz is 0 and sigma_z is exactly q inside the disk,
      q/2 on its rim and 0 outside, measured on r = hypot(x - cx, y - cy).
      SigmaZAt and TauRZAt are these functions of the integrated values. */
  lemma DiskSurfaceTraction(v: real, s: Integrals, p: Point3, radiusA: real, q: real, center: XY,
                            num: Transcendentals)
    requires 0.0 <= p.z <= DiskDepthEps(radiusA)
    ensures var sig := SurfaceSigma(v, p, radiusA, q, center, num);
      var rad, tol := num.hypot(p.x - center.x, p.y - center.y), DiskEdgeTol(radiusA);
      && Projected(s, Localize(p, center, radiusA), OnSurface(p, radiusA), num) == 0.0
      && (rad < radiusA - tol ==> sig == q)
      && (Abs(rad - radiusA) <= tol ==> sig == 0.5 * q)
      && (rad > radiusA + tol ==> sig == 0.0)
      && (sig == q || sig == 0.5 * q || sig == 0.0)
  {
    SurfaceValue(v, true, num.hypot(p.x - center.x, p.y - center.y), radiusA, DiskEdgeTol(radiusA), q);
  }

  /** The same on the reference outputs the solvers are specified by: at
      the free surface tau_rz is 0 and sigma_z is q, q/2 or 0 by band. */
  lemma DiskSurfaceOutputs(p: Point3, radiusA: real, q: real, center: XY, g: PolarGrid, kern: Kernels,
                           num: Transcendentals)
    requires GridShaped(g) && 0.0 <= p.z <= DiskDepthEps(radiusA)
    ensures var sig := SigmaZAt(p, radiusA, q, center, g, kern.zz, num);
      var rad, tol := num.hypot(p.x - center.x, p.y - center.y), DiskEdgeTol(radiusA);
      && TauRZAt(p, radiusA, q, center, g, kern, num) == 0.0
      && (rad < radiusA - tol ==> sig == q)
      && (Abs(rad - radiusA) <= tol ==> sig == 0.5 * q)
      && (rad > radiusA + tol ==> sig == 0.0)
      && (sig == q || sig == 0.5 * q || sig == 0.0)
  {
    var lp := Localize(p, center, radiusA);
    DiskSurfaceTraction(Integrated(kern.zz, q, g, lp), IntegrateAll(kern, q, g, lp), p, radiusA, q, center, num);
  }

  /** Below the surface layer the point is integrated at its own depth, its
      sigma_z is the integrated value untouched, and tau_rz is the projection
      of the shears on phi = atan2(y - cy, x - cx). */
  lemma DiskBelowSurface(v: real, s: Integrals, p: Point3, radiusA: real, q: real, center: XY,
                         num: Transcendentals)
    requires p.z > DiskDepthEps(radiusA)
    ensures Localize(p, center, radiusA) == LocalPoint(p.x - center.x, p.y - center.y, p.z)
    ensures SurfaceSigma(v, p, radiusA, q, center, num) == v
    ensures var phi := num.atan2(p.y - center.y, p.x - center.x);
      Projected(s, Localize(p, center, radiusA), OnSurface(p, radiusA), num)
      == s.xz * num.cos(phi) + s.yz * num.sin(phi)
  {
    SurfaceValue(v, false, num.hypot(p.x - center.x, p.y - center.y), radiusA, DiskEdgeTol(radiusA), q);
  }

  /** Only the offset from the center matters: moving the point and the
      footing together leaves both outputs unchanged. */
  lemma DiskTranslation(p: Point3, radiusA: real, q: real, center: XY, g: PolarGrid, kern: Kernels,
                        num: Transcendentals)
    requires GridShaped(g)
    ensures var p0 := Point3(p.x - center.x, p.y - center.y, p.z);
      && SigmaZAt(p, radiusA, q, center, g, kern.zz, num) == SigmaZAt(p0, radiusA, q, XY(0.0, 0.0), g, kern.zz, num)
      && TauRZAt(p, radiusA, q, center, g, kern, num) == TauRZAt(p0, radiusA, q, XY(0.0, 0.0), g, kern, num)
  {
    var p0 := Point3(p.x - center.x, p.y - center.y, p.z);
    assert Localize(p, center, radiusA) == Localize(p0, XY(0.0, 0.0), radiusA);
  }

  /** With a kernel that is c everywhere, a point below the surface layer
      gets sigma_z = q c pi a^2 on any grid whose weights add up to the disk's
      area, as the solver grid's do (SolverGridArea). */
  lemma DiskConstantKernel(p: Point3, radiusA: real, q: real, c: real, center: XY, g: PolarGrid,
                           kzz: Kernel, num: Transcendentals)
    requires GridShaped(g) && WeightTotal(g.weights) == PI * radiusA * radiusA
    requires p.z > DiskDepthEps(radiusA)
    requires forall dx: real, dy: real, z: Depth :: kzz(dx, dy, z) == c
    ensures SigmaZAt(p, radiusA, q, center, g, kzz, num) == q * (c * (PI * radiusA * radiusA))
  {
    var lp := Localize(p, center, radiusA);
    QuadratureOfConstantTotal(kzz, c, lp.x, lp.y, lp.zpos, g, PI * radiusA * radiusA);
    SurfaceValue(Integrated(kzz, q, g, lp), false, num.hypot(p.x - center.x, p.y - center.y),
                 radiusA, DiskEdgeTol(radiusA), q);
  }

  /** The solver grid's weights add up to pi a^2, whatever the point count. */
  lemma SolverGridArea(radiusA: real, numPoints: int, nR0: int, nTheta0: int, num: Transcendentals)
    requires nR0 >= 3 && nTheta0 >= 3
    ensures WeightTotal(SolverGrid(radiusA, numPoints, nR0, nTheta0, num).weights) == PI * radiusA * radiusA
  {
    EffectiveNodesPolicy(numPoints, nR0, nTheta0);
    var (nR, nTheta) := EffectiveNodes(numPoints, nR0, nTheta0);
    PolarNodesArea(radiusA, nR, nTheta, num);
  }
}
