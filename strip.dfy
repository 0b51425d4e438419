/** AnalyticalStripSolver: sigma_z_infinite_strip. The closed-form
    plane-strain expressions are written out over the uninterpreted
    arctangent, sine and cosine; validation, the depth clamp and the
    free-surface overwrite are exact. */
module Strip {
  import opened Common
  import opened Rotation
  import opened Surface

  /** The four stress components at one point. */
  datatype Sample = Sample(sigmaZ: real, sigmaX: real, sigmaY: real, tauXZ: real)

  /** The four output arrays, aligned with the input points. */
  datatype StripStress = StripStress(sigmaZ: seq<real>, sigmaX: seq<real>, sigmaY: seq<real>, tauXZ: seq<real>)

  predicate Aligned(s: StripStress, n: int) {
    |s.sigmaZ| == n && |s.sigmaX| == n && |s.sigmaY| == n && |s.tauXZ| == n
  }

  function SampleAt(s: StripStress, k: int): Sample
    requires Aligned(s, |s.sigmaZ|) && 0 <= k < |s.sigmaZ|
  {
    Sample(s.sigmaZ[k], s.sigmaX[k], s.sigmaY[k], s.tauXZ[k])
  }

  /** The smooth plane-strain solution at local offset x and clamped depth
      zpos (> 0, so both quotients are defined), half-width b. */
  function SmoothStrip(x: real, zpos: Depth, b: real, q: real, nu: real, num: Transcendentals): Sample {
    var betaPrime := num.atan((x - b) / zpos);
    var sss := num.atan((x + b) / zpos);
    var alpha := sss - betaPrime;
    var beta := alpha / 2.0 + betaPrime;
    var termZ := num.sin(alpha) * num.cos(2.0 * beta) + alpha;
    var termX := -num.sin(alpha) * num.cos(2.0 * beta) + alpha;
    var termXZ := num.sin(alpha) * num.sin(2.0 * beta);
    var sigZ := (q / PI) * termZ;
    Sample(sigZ, (q / PI) * termX, nu * sigZ, (q / PI) * termXZ)
  }

  /** The point's horizontal offset in the footing's frame: translated by
      -center, then rotated by -rotation_deg. */
  function LocalOffset(p: Point3, center: XY, rotationDeg: real, num: Transcendentals): XY {
    RotatePointsXY([XY(p.x - center.x, p.y - center.y)], -rotationDeg, num)[0]
  }

  /** One output entry from the point's local offset x and its depth z: the
      smooth solution at the clamped depth, then the free-surface values
      where z <= z_epsilon. */
  function StripLocal(x: real, z: real, widthB: real, q: real, nu: real, num: Transcendentals): Sample {
    var b := 0.5 * widthB;
    var eps := StripDepthEps(widthB);
    var s := SmoothStrip(x, ClampDepth(z, eps), b, q, nu, num);
    var onSurface := z <= eps;
    Sample(BandOverwrite(s.sigmaZ, onSurface, Abs(x), b, StripEdgeTol(widthB), q),
           if onSurface then 0.0 else s.sigmaX,
           if onSurface then 0.0 else s.sigmaY,
           if onSurface then 0.0 else s.tauXZ)
  }

  /** Reference definition of the entry of point p. */
  function StripAt(p: Point3, widthB: real, q: real, nu: real, rotationDeg: real, center: XY,
                   num: Transcendentals): Sample
  {
    StripLocal(LocalOffset(p, center, rotationDeg, num).x, p.z, widthB, q, nu, num)
  }

  /** sigma_z_infinite_strip. Fails on width_b <= 0, then on any negative
      depth, before computing anything; otherwise every entry is StripAt of
      its own point. */
  method SigmaZInfiniteStrip(points: seq<Point3>, widthB: real, q: real, nu: real,
                             rotationDeg: real, center: XY, num: Transcendentals)
    returns (r: Result<StripStress>)
    ensures widthB <= 0.0 ==> r == Err(NonPositiveWidth)
    ensures widthB > 0.0 && (exists k :: 0 <= k < |points| && points[k].z < 0.0) ==> r == Err(NegativeDepth)
    ensures widthB > 0.0 && (forall k :: 0 <= k < |points| ==> points[k].z >= 0.0) ==>
      r.Ok? && Aligned(r.value, |points|) &&
      forall k :: 0 <= k < |points| ==> SampleAt(r.value, k) == StripAt(points[k], widthB, q, nu, rotationDeg, center, num)
  {
    if widthB <= 0.0 {
      return Err(NonPositiveWidth);
    }
    var n := |points|;
    var shifted := seq(n, k requires 0 <= k < n => XY(points[k].x - center.x, points[k].y - center.y));
    var local := RotatePointsXY(shifted, -rotationDeg, num);
    var x := seq(n, k requires 0 <= k < n => local[k].x);
    var z := seq(n, k requires 0 <= k < n => points[k].z);
    if AnyNegativeDepth(points) {
      return Err(NegativeDepth);
    }
    forall k | 0 <= k < n ensures x[k] == LocalOffset(points[k], center, rotationDeg, num).x {
      var single := RotatePointsXY([shifted[k]], -rotationDeg, num);
      assert single[0] == local[k];
    }
    var out := StripFields(x, z, widthB, q, nu, num);
    r := Ok(out);
  }

  /** The array part of the solver, on the local offsets and depths. */
  method StripFields(x: seq<real>, z: seq<real>, widthB: real, q: real, nu: real, num: Transcendentals)
    returns (out: StripStress)
    requires |x| == |z|
    ensures Aligned(out, |x|)
    ensures forall k :: 0 <= k < |x| ==> SampleAt(out, k) == StripLocal(x[k], z[k], widthB, q, nu, num)
  {
    var n := |x|;
    var b := 0.5 * widthB;
    var zEps := StripDepthEps(widthB);
    var zpos := seq(n, k requires 0 <= k < n => ClampDepth(z[k], zEps));
    var smooth := seq(n, k requires 0 <= k < n => SmoothStrip(x[k], zpos[k], b, q, nu, num));
    // The smooth values for all points, the near-surface ones included, then
    // the traction boundary conditions at the free surface.
    var onSurface := seq(n, k requires 0 <= k < n => z[k] <= zEps);
    var absX := seq(n, k requires 0 <= k < n => Abs(x[k]));
    var sigZ := BandedColumn(seq(n, k requires 0 <= k < n => smooth[k].sigmaZ), onSurface, absX, b,
                             StripEdgeTol(widthB), q);
    var sigX := ZeroedColumn(seq(n, k requires 0 <= k < n => smooth[k].sigmaX), onSurface);
    var sigY := ZeroedColumn(seq(n, k requires 0 <= k < n => smooth[k].sigmaY), onSurface);
    var tauXZ := ZeroedColumn(seq(n, k requires 0 <= k < n => smooth[k].tauXZ), onSurface);
    out := StripStress(sigZ, sigX, sigY, tauXZ);
  }

  /** One output array filled with the smooth values, then banded at the
      surface. */
  method BandedColumn(smooth: seq<real>, onSurface: seq<bool>, rad: seq<real>, bound: real, tol: real, q: real)
    returns (col: seq<real>)
    requires |smooth| == |onSurface| == |rad|
    ensures |col| == |smooth|
    ensures forall k :: 0 <= k < |smooth| ==> col[k] == BandOverwrite(smooth[k], onSurface[k], rad[k], bound, tol, q)
  {
    var arr := new real[|smooth|](k requires 0 <= k < |smooth| => smooth[k]);
    OverwriteBands(arr, onSurface, rad, bound, tol, q);
    col := arr[..];
  }

  /** One output array filled with the smooth values, then zeroed at the
      surface. */
  method ZeroedColumn(smooth: seq<real>, onSurface: seq<bool>) returns (col: seq<real>)
    requires |smooth| == |onSurface|
    ensures |col| == |smooth|
    ensures forall k :: 0 <= k < |smooth| ==> col[k] == if onSurface[k] then 0.0 else smooth[k]
  {
    var arr := new real[|smooth|](k requires 0 <= k < |smooth| => smooth[k]);
    ZeroOnSurface(arr, onSurface);
    col := arr[..];
  }

  /** At the free surface (z <= z_epsilon) sigma_x, sigma_y and tau_xz are 0
      and sigma_z is exactly q inside the strip, q/2 on its edges and 0
      outside, the bands being measured on |x| in the footing's frame. */
  lemma StripSurfaceTraction(p: Point3, widthB: real, q: real, nu: real, rotationDeg: real, center: XY,
                             num: Transcendentals)
    requires widthB > 0.0 && 0.0 <= p.z <= StripDepthEps(widthB)
    ensures var s := StripAt(p, widthB, q, nu, rotationDeg, center, num);
      var absX := Abs(LocalOffset(p, center, rotationDeg, num).x);
      var b, tol := 0.5 * widthB, StripEdgeTol(widthB);
      && s.sigmaX == 0.0 && s.sigmaY == 0.0 && s.tauXZ == 0.0
      && (absX < b - tol ==> s.sigmaZ == q)
      && (Abs(absX - b) <= tol ==> s.sigmaZ == 0.5 * q)
      && (absX > b + tol ==> s.sigmaZ == 0.0)
      && (s.sigmaZ == q || s.sigmaZ == 0.5 * q || s.sigmaZ == 0.0)
  {
    var x := LocalOffset(p, center, rotationDeg, num).x;
    var eps := StripDepthEps(widthB);
    var smooth := SmoothStrip(x, ClampDepth(p.z, eps), 0.5 * widthB, q, nu, num);
    SurfaceValue(smooth.sigmaZ, true, Abs(x), 0.5 * widthB, StripEdgeTol(widthB), q);
  }

  /** Below the surface layer the smooth solution is reported untouched, at
      the point's own depth, and sigma_y = nu * sigma_z. */
  lemma StripBelowSurface(p: Point3, widthB: real, q: real, nu: real, rotationDeg: real, center: XY,
                          num: Transcendentals)
    requires widthB > 0.0 && p.z > StripDepthEps(widthB)
    ensures var s := StripAt(p, widthB, q, nu, rotationDeg, center, num);
      && s == SmoothStrip(LocalOffset(p, center, rotationDeg, num).x, p.z, 0.5 * widthB, q, nu, num)
      && s.sigmaY == nu * s.sigmaZ
  {
    var x := LocalOffset(p, center, rotationDeg, num).x;
    var eps := StripDepthEps(widthB);
    var smooth := SmoothStrip(x, ClampDepth(p.z, eps), 0.5 * widthB, q, nu, num);
    SurfaceValue(smooth.sigmaZ, false, Abs(x), 0.5 * widthB, StripEdgeTol(widthB), q);
  }

  /** Rotation equivalence: a point evaluated against a footing rotated by
      rotationDeg gives what its inverse-rotated position gives against the
      unrotated footing with the same center. */
  lemma StripRotationEquivalence(p: Point3, widthB: real, q: real, nu: real, rotationDeg: real, center: XY,
                                 num: Transcendentals)
    ensures var u := LocalOffset(p, center, rotationDeg, num);
      StripAt(p, widthB, q, nu, rotationDeg, center, num)
      == StripAt(Point3(center.x + u.x, center.y + u.y, p.z), widthB, q, nu, 0.0, center, num)
  {
    var u := LocalOffset(p, center, rotationDeg, num);
    var p' := Point3(center.x + u.x, center.y + u.y, p.z);
    assert -0.0 == 0.0;
    assert LocalOffset(p', center, 0.0, num) == XY(center.x + u.x - center.x, center.y + u.y - center.y);
    assert LocalOffset(p', center, 0.0, num) == u;
  }

  /** The converse, which rests on the rotation actually inverting: placing
      a point at center + R(rotationDeg)(p0 - center) and evaluating it
      against the strip rotated by rotationDeg gives what p0 gives against
      the unrotated strip, for an even cosine and odd sine with
      cos^2 + sin^2 = 1 at that angle. */
  lemma StripRotationInverse(p0: Point3, widthB: real, q: real, nu: real, rotationDeg: real, center: XY,
                             num: Transcendentals)
    requires var t := DegToRad(rotationDeg);
      && num.cos(-t) == num.cos(t) && num.sin(-t) == -num.sin(t)
      && num.cos(t) * num.cos(t) + num.sin(t) * num.sin(t) == 1.0
    ensures var w := RotatePointsXY([XY(p0.x - center.x, p0.y - center.y)], rotationDeg, num)[0];
      StripAt(Point3(center.x + w.x, center.y + w.y, p0.z), widthB, q, nu, rotationDeg, center, num)
      == StripAt(p0, widthB, q, nu, 0.0, center, num)
  {
    var d := [XY(p0.x - center.x, p0.y - center.y)];
    var rotated := RotatePointsXY(d, rotationDeg, num);
    var w := rotated[0];
    var p := Point3(center.x + w.x, center.y + w.y, p0.z);
    RotateThenUnrotate(d, rotationDeg, num);
    assert [XY(p.x - center.x, p.y - center.y)] == rotated;
    assert LocalOffset(p, center, rotationDeg, num) == d[0];
    assert -0.0 == 0.0;
    assert LocalOffset(p0, center, 0.0, num) == d[0];
  }
}
