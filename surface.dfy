/** The clamp-then-override treatment of the free surface: depths are clamped
    to a positive epsilon before the smooth formulas are evaluated, and the
    points within epsilon of the surface then have their stresses overwritten
    with the exact boundary values. */
module Surface {
  import opened Common

  /** z_epsilon of the strip solver: max(1e-8 * width_b, 1e-9). */
  function StripDepthEps(widthB: real): (eps: real)
    ensures eps > 0.0 && eps >= 1.0e-9 && eps >= 1.0e-8 * widthB
    ensures eps == MaxReal(1.0e-8 * widthB, 1.0e-9)
  {
    MaxReal(1.0e-8 * widthB, 1.0e-9)
  }

  /** edge_tol of the strip solver: max(1e-6 * width_b, 1e-8). */
  function StripEdgeTol(widthB: real): (tol: real)
    ensures tol > 0.0 && tol >= 1.0e-6 * widthB
    ensures tol == MaxReal(1.0e-6 * widthB, 1.0e-8)
  {
    MaxReal(1.0e-6 * widthB, 1.0e-8)
  }

  /** z_eps of the circular solvers: max(1e-6 * radius_a, 1e-6). */
  function DiskDepthEps(radiusA: real): (eps: real)
    ensures eps > 0.0 && eps >= 1.0e-6 && eps >= 1.0e-6 * radiusA
    ensures eps == MaxReal(1.0e-6 * radiusA, 1.0e-6)
  {
    MaxReal(1.0e-6 * radiusA, 1.0e-6)
  }

  /** edge_tol of the circular solvers: max(1e-4 * radius_a, 1e-5). */
  function DiskEdgeTol(radiusA: real): (tol: real)
    ensures tol > 0.0 && tol >= 1.0e-4 * radiusA
    ensures tol == MaxReal(1.0e-4 * radiusA, 1.0e-5)
  {
    MaxReal(1.0e-4 * radiusA, 1.0e-5)
  }

  /** np.where(z < eps, eps, z): the depth handed to the smooth formulas. It is
      never below eps, and only depths below eps are changed. */
  function ClampDepth(z: real, eps: real): (zpos: Depth)
    requires eps > 0.0
    ensures zpos >= eps
    ensures z >= eps ==> zpos == z
    ensures zpos != z ==> z < eps
  {
    if z < eps then eps else z
  }

  /** Every point whose depth the clamp altered lies in the surface mask
      z <= eps, so its overwritten components never show the clamped value. */
  lemma ClampedPointsAreSurfacePoints(z: real, eps: real)
    requires eps > 0.0
    ensures ClampDepth(z, eps) != z ==> z <= eps
    ensures ClampDepth(ClampDepth(z, eps), eps) == ClampDepth(z, eps)
  {
  }

  /** The three tolerance bands of the surface correction, on the distance
      rad from the load axis (|x| for the strip, r for the disk). */
  predicate InsideBand(rad: real, bound: real, tol: real) { rad < bound - tol }
  predicate EdgeBand(rad: real, bound: real, tol: real) { Abs(rad - bound) <= tol }
  predicate OutsideBand(rad: real, bound: real, tol: real) { rad > bound + tol }

  /** With a positive tolerance the bands are pairwise disjoint and cover
      every distance. */
  lemma BandsPartition(rad: real, bound: real, tol: real)
    requires tol > 0.0
    ensures InsideBand(rad, bound, tol) || EdgeBand(rad, bound, tol) || OutsideBand(rad, bound, tol)
    ensures !(InsideBand(rad, bound, tol) && EdgeBand(rad, bound, tol))
    ensures !(InsideBand(rad, bound, tol) && OutsideBand(rad, bound, tol))
    ensures !(EdgeBand(rad, bound, tol) && OutsideBand(rad, bound, tol))
  {
  }

  /** One entry after the three masked assignments sig[inside] = q,
      sig[edge] = 0.5 q, sig[outside] = 0, performed in that order. */
  function BandOverwrite(v: real, onSurface: bool, rad: real, bound: real, tol: real, q: real): real {
    if onSurface && OutsideBand(rad, bound, tol) then 0.0
    else if onSurface && EdgeBand(rad, bound, tol) then 0.5 * q
    else if onSurface && InsideBand(rad, bound, tol) then q
    else v
  }

  /** The surface value: a surface point gets exactly q inside, q/2 on the
      edge and 0 outside, whatever order the writes happen in; any other
      point keeps its computed value. */
  lemma SurfaceValue(v: real, onSurface: bool, rad: real, bound: real, tol: real, q: real)
    requires tol > 0.0
    ensures var w := BandOverwrite(v, onSurface, rad, bound, tol, q);
      && (!onSurface ==> w == v)
      && (onSurface && InsideBand(rad, bound, tol) ==> w == q)
      && (onSurface && EdgeBand(rad, bound, tol) ==> w == 0.5 * q)
      && (onSurface && OutsideBand(rad, bound, tol) ==> w == 0.0)
      && (onSurface ==> w == q || w == 0.5 * q || w == 0.0)
  {
    BandsPartition(rad, bound, tol);
  }

  /** The masked overwrite of sigma_z, as three passes of boolean-mask
      assignment over the preallocated array. */
  method OverwriteBands(sig: array<real>, onSurface: seq<bool>, rad: seq<real>, bound: real, tol: real, q: real)
    requires sig.Length == |onSurface| == |rad|
    modifies sig
    ensures forall k :: 0 <= k < sig.Length ==>
      sig[k] == BandOverwrite(old(sig[k]), onSurface[k], rad[k], bound, tol, q)
  {
    ghost var before := sig[..];
    for k := 0 to sig.Length
      invariant forall i :: 0 <= i < sig.Length ==>
        sig[i] == if i < k && onSurface[i] && InsideBand(rad[i], bound, tol) then q else before[i]
    {
      if onSurface[k] && InsideBand(rad[k], bound, tol) {
        sig[k] := q;
      }
    }
    ghost var afterInside := sig[..];
    for k := 0 to sig.Length
      invariant forall i :: 0 <= i < sig.Length ==>
        sig[i] == if i < k && onSurface[i] && EdgeBand(rad[i], bound, tol) then 0.5 * q else afterInside[i]
    {
      if onSurface[k] && EdgeBand(rad[k], bound, tol) {
        sig[k] := 0.5 * q;
      }
    }
    ghost var afterEdge := sig[..];
    for k := 0 to sig.Length
      invariant forall i :: 0 <= i < sig.Length ==>
        sig[i] == if i < k && onSurface[i] && OutsideBand(rad[i], bound, tol) then 0.0 else afterEdge[i]
    {
      if onSurface[k] && OutsideBand(rad[k], bound, tol) {
        sig[k] := 0.0;
      }
    }
  }

  /** arr[surface_mask] = 0.0: the free surface carries no traction in the
      other components. */
  method ZeroOnSurface(arr: array<real>, onSurface: seq<bool>)
    requires arr.Length == |onSurface|
    modifies arr
    ensures forall k :: 0 <= k < arr.Length ==> arr[k] == if onSurface[k] then 0.0 else old(arr[k])
  {
    for k := 0 to arr.Length
      invariant forall i :: 0 <= i < arr.Length ==> arr[i] == if i < k && onSurface[i] then 0.0 else old(arr[i])
    {
      if onSurface[k] {
        arr[k] := 0.0;
      }
    }
  }
}
